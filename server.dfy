/**
 * The authoritative multiplayer server, without its sockets, threads and
 * locks: target selection for enemies, the join admission and client-id
 * allocation, the inbound message queue and how a tick drains it into the
 * client registry, pruning, the per-recipient snapshot, and the order of
 * the steps of one tick.
 *
 * The registry is a Python dict, which iterates in insertion order; it is
 * a sequence of records here, in that order, with strictly increasing ids.
 */
module Server {
  import opened Wrappers
  import opened Protocol
  import opened BulletHell

  /** TICK_RATE: the world advances 60 times a second. */
  const TickRate: int := 60

  /** `delta_time * 1000`: the milliseconds the clock advances per tick. */
  const TickMillis: real := 1000.0 / 60.0

  /** The reasons a join is refused. */
  const ExpectedJoin: string := "expected join"
  const InvalidToken: string := "invalid token"

  // ---------------------------------------------------------------------
  // Client records
  // ---------------------------------------------------------------------

  /** ClientRecord: one admitted connection and its player. */
  class ClientRecord {
    const clientId: int
    const sock: Socket
    const player: Entity
    var latestAction: int
    var disconnected: bool

    /** A new record holds flat action 0 and is connected. */
    constructor (clientId: int, sock: Socket, player: Entity)
      ensures this.clientId == clientId && this.sock == sock && this.player == player
      ensures latestAction == 0 && !disconnected
    {
      this.clientId := clientId;
      this.sock := sock;
      this.player := player;
      latestAction := 0;
      disconnected := false;
    }
  }

  /**
   * The direction string a flat action selects, through MOVE_LOOKUP, and
   * the movement it causes: "none" moves nothing.
   */
  function DecodedAction(flatAction: int): (a: Option<Direction>)
    ensures a == ActionOf(MoveLookup[FlatActionToMoveAndAngle(flatAction).0])
    ensures FlatActionToMoveAndAngle(flatAction).0 == 4 ==> a == None
  {
    var move := FlatActionToMoveAndAngle(flatAction).0;
    MoveOfIndex(move);
    ActionOf(MoveLookup[move])
  }

  /** Each move index names the direction string MOVE_LOOKUP maps it to. */
  lemma MoveOfIndex(move: int)
    requires 0 <= move < NumMoves
    ensures move in MoveLookup
    ensures move == 0 ==> MoveLookup[move] == "left"
    ensures move == 4 ==> MoveLookup[move] == "none"
  {
  }

  /**
   * The initial latest_action of a record is flat action 0, which decodes
   * to move 0 at 0 degrees: the player moves left until its client sends
   * an action, although the comment beside it says "no move".
   */
  lemma DefaultActionMovesLeft()
    ensures FlatActionToMoveAndAngle(0) == (0, 0)
    ensures DecodedAction(0) == Some(Left)
  {
    MoveOfIndex(0);
  }

  // ---------------------------------------------------------------------
  // Target selection
  // ---------------------------------------------------------------------

  /** The squared distance between the centres of an enemy and a player, on floor-halved sizes. */
  function CentreDist2(enemy: Entity, p: Entity): int
    reads enemy, p
  {
    var dx := Centre(p.x, p.size) - Centre(enemy.x, enemy.size);
    var dy := Centre(p.y, p.size) - Centre(enemy.y, enemy.size);
    dx * dx + dy * dy
  }

  /**
   * `players[k]` is the living player nearest to `enemy` among the first
   * `n`, and no living player before it is as near.
   */
  ghost predicate NearestAmong(enemy: Entity, players: seq<Entity>, n: int, k: int)
    reads enemy, players
    requires 0 <= n <= |players|
  {
    0 <= k < n && players[k].health > 0 &&
    (forall j | 0 <= j < n && players[j].health > 0 :: CentreDist2(enemy, players[k]) <= CentreDist2(enemy, players[j])) &&
    (forall j | 0 <= j < k && players[j].health > 0 :: CentreDist2(enemy, players[k]) < CentreDist2(enemy, players[j]))
  }

  /**
   * _nearest_player: `None` when no player is alive; otherwise the living
   * player of least squared centre distance, the first of them on a tie
   * (the comparison is a strict `<`).
   */
  method NearestPlayer(enemy: Entity, players: seq<Entity>) returns (best: Option<Entity>, ghost k: int)
    ensures best.None? <==> forall j | 0 <= j < |players| :: players[j].health <= 0
    ensures best.Some? ==> NearestAmong(enemy, players, |players|, k) && best.value == players[k]
  {
    k := 0;
    if |players| == 0 {
      return None, k;
    }
    var ex := enemy.x + enemy.size / 2;
    var ey := enemy.y + enemy.size / 2;
    best := None;
    var bestD2 := 0;
    for i := 0 to |players|
      invariant best.None? ==> forall j | 0 <= j < i :: players[j].health <= 0
      invariant best.Some? ==>
                  NearestAmong(enemy, players, i, k) && best.value == players[k] &&
                  bestD2 == CentreDist2(enemy, players[k])
    {
      var p := players[i];
      if p.health <= 0 {
        continue;
      }
      var px := p.x + p.size / 2;
      var py := p.y + p.size / 2;
      var d2 := (px - ex) * (px - ex) + (py - ey) * (py - ey);
      if best.None? || d2 < bestD2 {
        bestD2 := d2;
        best := Some(p);
        k := i;
      }
    }
  }

  /** The nearest player is unique: the tie rule leaves no choice. */
  lemma NearestIsUnique(enemy: Entity, players: seq<Entity>, k1: int, k2: int)
    requires NearestAmong(enemy, players, |players|, k1) && NearestAmong(enemy, players, |players|, k2)
    ensures k1 == k2
  {
  }

  // ---------------------------------------------------------------------
  // Admission
  // ---------------------------------------------------------------------

  /**
   * What the accept loop gets from a new connection: an OSError from
   * setting or clearing the ten-second timeout, or the result of
   * recv_message. recv_message catches its own OSError, so a read that
   * times out or finds the socket broken arrives as `Arrived(None)`.
   */
  datatype Arrival = SetTimeoutFailed | Arrived(msg: Option<Message>)

  /** The outcome of the join check: admit, refuse with a reason, or close without a word. */
  datatype Verdict = Admit | Refuse(reason: string) | Drop

  /**
   * The join check of accept_loop. A connection whose timeout cannot be
   * set or cleared is closed without a reply; anything but a join
   * is refused with "expected join"; with a secret configured, a join
   * whose token differs is refused with "invalid token"; every other join
   * is admitted. A payload that is valid JSON but not an object is refused
   * as not being a join.
   */
  function Admission(a: Arrival, secret: Option<string>): (v: Verdict)
    ensures v == Drop <==> a.SetTimeoutFailed?
    ensures v == Refuse(ExpectedJoin) <==> a.Arrived? && (a.msg.None? || !a.msg.value.Join?)
    ensures v == Refuse(InvalidToken) <==>
      a.Arrived? && a.msg.Some? && a.msg.value.Join? && secret.Some? && a.msg.value.token != secret
    ensures v == Admit <==>
      a.Arrived? && a.msg.Some? && a.msg.value.Join? && (secret.None? || a.msg.value.token == secret)
  {
    match a
    case SetTimeoutFailed => Drop
    case Arrived(msg) =>
      if msg.None? || !msg.value.Join? then Refuse(ExpectedJoin)
      else if secret.Some? && msg.value.token != secret then Refuse(InvalidToken)
      else Admit
  }

  /**
   * The join check as written: `msg.get("type")` is called on whatever
   * recv_message returned, so a payload that is valid JSON but not an
   * object raises AttributeError, which nothing catches; `None` is that
   * exception, which ends the accept thread for good.
   */
  function AdmissionAsWritten(a: Arrival, secret: Option<string>): (v: Option<Verdict>)
    ensures v.None? <==> a == Arrived(Some(NotAnObject))
    ensures v.Some? ==> v.value == Admission(a, secret)
  {
    match a
    case SetTimeoutFailed => Some(Drop)
    case Arrived(msg) =>
      if msg == Some(NotAnObject) then None
      else if msg.None? || !msg.value.Join? then Some(Refuse(ExpectedJoin))
      else if secret.Some? && msg.value.token != secret then Some(Refuse(InvalidToken))
      else Some(Admit)
  }

  /**
   * A connection that sends nothing before the timeout, closes, or sends
   * a frame recv_message cannot read is refused with "expected join", not
   * dropped: its arrival is `Arrived(None)`.
   */
  lemma SilentConnectionIsExpectedJoin(secret: Option<string>)
    ensures Admission(Arrived(None), secret) == Refuse(ExpectedJoin)
    ensures AdmissionAsWritten(Arrived(None), secret) == Some(Refuse(ExpectedJoin))
  {
  }

  /**
   * A client sending the JSON number 5 as its first message stops the
   * server from admitting anyone after it: the accept thread raises.
   */
  lemma NonObjectFirstMessageEndsAccepting(secret: Option<string>)
    ensures AdmissionAsWritten(Arrived(Some(NotAnObject)), secret).None?
    ensures Admission(Arrived(Some(NotAnObject)), secret) == Refuse(ExpectedJoin)
  {
  }

  // ---------------------------------------------------------------------
  // The inbound queue
  // ---------------------------------------------------------------------

  /** One entry of the message queue: the sender's id and the message, `None` for a disconnect. */
  datatype Entry = Entry(cid: int, msg: Option<Message>)

  /**
   * What _client_recv_loop puts on the queue when its socket holds `data`:
   * one entry per message read, in order, and then, once recv_message
   * yields nothing, a final `(cid, None)`.
   */
  function ReaderEntries(cid: int, data: seq<Byte>, parse: seq<Byte> -> Option<Message>): (q: seq<Entry>)
    decreases |data|
    ensures |q| >= 1 && q[|q| - 1] == Entry(cid, None)
    ensures forall i | 0 <= i < |q| :: q[i].cid == cid
    ensures forall i | 0 <= i < |q| - 1 :: q[i].msg.Some?
  {
    var (msg, rest) := ReadMessage(data, parse);
    if msg.None? then [Entry(cid, None)]
    else [Entry(cid, msg)] + ReaderEntries(cid, rest, parse)
  }

  /** The first entry the reader puts on the queue, and what follows it. */
  lemma ReaderEntriesUnfold(cid: int, data: seq<Byte>, parse: seq<Byte> -> Option<Message>)
    ensures ReaderEntries(cid, data, parse) ==
      [Entry(cid, ReadMessage(data, parse).0)] +
      (if ReadMessage(data, parse).0.None? then [] else ReaderEntries(cid, ReadMessage(data, parse).1, parse))
  {
  }

  /**
   * The loop of _client_recv_loop, appending to the queue `q`: read a
   * message, append it under `cid`, and stop after appending `None`.
   */
  method ReadInto(cid: int, sock: Socket, parse: seq<Byte> -> Option<Message>, q: seq<Entry>)
    returns (q': seq<Entry>)
    modifies sock`inbound
    ensures q' == q + ReaderEntries(cid, old(sock.inbound), parse)
  {
    q' := q;
    while true
      invariant q + ReaderEntries(cid, old(sock.inbound), parse) == q' + ReaderEntries(cid, sock.inbound, parse)
      decreases |sock.inbound|
    {
      ghost var before := sock.inbound;
      var msg := RecvMessage(sock, parse);
      ReaderEntriesUnfold(cid, before, parse);
      q' := q' + [Entry(cid, msg)];
      if msg.None? {
        return;
      }
    }
  }

  // ---------------------------------------------------------------------
  // Draining the queue
  // ---------------------------------------------------------------------

  /**
   * The flat action the tick takes from an action message: the value of
   * `msg.get("action", 0)` when it is a Python int (a JSON boolean is one)
   * in [0, FLAT_ACTION_COUNT); anything else is no action.
   */
  function ActionValue(f: ActionField): (v: Option<int>)
    ensures v.Some? ==> 0 <= v.value < FlatActionCount
    ensures f.IntAction? ==> (v.Some? <==> 0 <= f.value < FlatActionCount) && (v.Some? ==> v.value == f.value)
    ensures f.BoolAction? ==> v == Some(if f.flag then 1 else 0)
    ensures f.AbsentAction? ==> v == Some(0)
    ensures f.OtherAction? ==> v.None?
  {
    match f
    case IntAction(n) => if 0 <= n < FlatActionCount then Some(n) else None
    case BoolAction(b) => Some(if b then 1 else 0)
    case AbsentAction => Some(0)
    case OtherAction => None
  }

  /** The two fields of a client record the drain writes. */
  datatype Slot = Slot(latest: int, disconnected: bool)

  /** `e` is an action entry from client `id` carrying a valid flat action. */
  predicate SetsAction(id: int, e: Entry)
  {
    e.cid == id && e.msg.Some? && e.msg.value.Action? && ActionValue(e.msg.value.action).Some?
  }

  /**
   * What one queue entry does to the record of client `id`: a disconnect
   * entry of that client marks it, a valid action of that client becomes
   * its latest action, and every other entry leaves it as it is.
   */
  function Apply(id: int, s: Slot, e: Entry): Slot
  {
    if e.cid != id then s
    else if e.msg.None? then s.(disconnected := true)
    else if SetsAction(id, e) then s.(latest := ActionValue(e.msg.value.action).value)
    else s
  }

  /** The record of client `id` after the entries of `q`, in order. */
  function Drained(id: int, s: Slot, q: seq<Entry>): (r: Slot)
    ensures s.disconnected ==> r.disconnected
    ensures r.latest == s.latest || 0 <= r.latest < FlatActionCount
  {
    if q == [] then s
    else Apply(id, Drained(id, s, q[..|q| - 1]), q[|q| - 1])
  }

  /** A record is disconnected after the drain exactly when it was, or its client's reader sent `None`. */
  lemma {:induction false} DisconnectSticks(id: int, s: Slot, q: seq<Entry>)
    ensures Drained(id, s, q).disconnected <==> s.disconnected || exists i | 0 <= i < |q| :: q[i] == Entry(id, None)
  {
    if q != [] {
      var init := q[..|q| - 1];
      DisconnectSticks(id, s, init);
      assert forall i | 0 <= i < |init| :: init[i] == q[i];
    }
  }

  /** The last valid action of a client within the batch is the one its record keeps. */
  lemma {:induction false} LastValidActionWins(id: int, s: Slot, q: seq<Entry>, i: int)
    requires 0 <= i < |q| && SetsAction(id, q[i])
    requires forall j | i < j < |q| :: !SetsAction(id, q[j])
    ensures Drained(id, s, q).latest == ActionValue(q[i].msg.value.action).value
  {
    if i < |q| - 1 {
      var init := q[..|q| - 1];
      assert init[i] == q[i];
      LastValidActionWins(id, s, init, i);
    }
  }

  /**
   * Without a valid action from the client, its latest action stays: an
   * out-of-range or non-integer action, another message type, or any
   * entry of another client changes nothing.
   */
  lemma {:induction false} NoValidActionKeepsLatest(id: int, s: Slot, q: seq<Entry>)
    requires forall j | 0 <= j < |q| :: !SetsAction(id, q[j])
    ensures Drained(id, s, q).latest == s.latest
  {
    if q != [] {
      NoValidActionKeepsLatest(id, s, q[..|q| - 1]);
    }
  }

  /** Entries of other clients, and so of ids no record has, leave a record untouched. */
  lemma {:induction false} OtherClientsIgnored(id: int, s: Slot, q: seq<Entry>)
    requires forall j | 0 <= j < |q| :: q[j].cid != id
    ensures Drained(id, s, q) == s
  {
    if q != [] {
      OtherClientsIgnored(id, s, q[..|q| - 1]);
    }
  }

  /** A record whose latest action is a flat action keeps one through any drain. */
  lemma {:induction false} DrainedActionInRange(id: int, s: Slot, q: seq<Entry>)
    requires 0 <= s.latest < FlatActionCount
    ensures 0 <= Drained(id, s, q).latest < FlatActionCount
  {
    if q != [] {
      DrainedActionInRange(id, s, q[..|q| - 1]);
    }
  }

  /**
   * The drain as written: `msg.get("type")` runs on every message before
   * its sender is looked up, so an entry holding valid JSON that is not an
   * object raises AttributeError out of the tick loop, whoever sent it;
   * `None` is that exception, after which the server shuts down.
   */
  function DrainedAsWritten(id: int, s: Slot, q: seq<Entry>): Option<Slot>
  {
    if q == [] then Some(s)
    else
      var before := DrainedAsWritten(id, s, q[..|q| - 1]);
      if before.None? || q[|q| - 1].msg == Some(NotAnObject) then None
      else Some(Apply(id, before.value, q[|q| - 1]))
  }

  /** The drain as written agrees with the corrected one unless the batch holds a non-object message. */
  lemma {:induction false} DrainedAsWrittenAgrees(id: int, s: Slot, q: seq<Entry>)
    ensures DrainedAsWritten(id, s, q).None? <==> exists i | 0 <= i < |q| :: q[i].msg == Some(NotAnObject)
    ensures DrainedAsWritten(id, s, q).Some? ==> DrainedAsWritten(id, s, q).value == Drained(id, s, q)
  {
    if q != [] {
      var init := q[..|q| - 1];
      DrainedAsWrittenAgrees(id, s, init);
      assert forall i | 0 <= i < |init| :: init[i] == q[i];
    }
  }

  /**
   * A JSON number sent by a client that is not even in the registry any
   * more (its record was pruned) ends the tick loop; the corrected drain
   * ignores it.
   */
  lemma NonObjectEndsTick(s: Slot)
    ensures DrainedAsWritten(0, s, [Entry(7, Some(NotAnObject))]).None?
    ensures Drained(0, s, [Entry(7, Some(NotAnObject))]) == s
  {
    assert [Entry(7, Some(NotAnObject))][..0] == [];
  }

  // ---------------------------------------------------------------------
  // The registry
  // ---------------------------------------------------------------------

  /** The registry's records in insertion order have strictly increasing ids. */
  ghost predicate IdsIncreasing(recs: seq<ClientRecord>)
  {
    forall j, k | 0 <= j < k < |recs| :: recs[j].clientId < recs[k].clientId
  }

  /** No player belongs to two records. */
  ghost predicate PlayersApart(recs: seq<ClientRecord>)
  {
    forall j, k | 0 <= j < k < |recs| :: recs[j].player != recs[k].player
  }

  /** The drained fields of a record. */
  function SlotOf(r: ClientRecord): Slot
    reads r
  {
    Slot(r.latestAction, r.disconnected)
  }

  /** `if cid in clients`: the position of the record of client `id`, if there is one. */
  method Lookup(recs: seq<ClientRecord>, id: int) returns (k: Option<int>)
    ensures k.Some? ==> 0 <= k.value < |recs| && recs[k.value].clientId == id
    ensures k.None? ==> forall j | 0 <= j < |recs| :: recs[j].clientId != id
  {
    for i := 0 to |recs|
      invariant forall j | 0 <= j < i :: recs[j].clientId != id
    {
      if recs[i].clientId == id {
        return Some(i);
      }
    }
    return None;
  }

  /**
   * The drain after its first `i` entries: every record holds what the
   * entries so far make of the fields `s0` it started with.
   */
  ghost predicate DrainedUpTo(recs: seq<ClientRecord>, s0: seq<Slot>, batch: seq<Entry>, i: int)
    reads recs
  {
    |s0| == |recs| && 0 <= i <= |batch| &&
    forall k | 0 <= k < |recs| :: SlotOf(recs[k]) == Drained(recs[k].clientId, s0[k], batch[..i])
  }

  /** One entry of the drain: a disconnect or a valid action reaches its sender's record, if it has one. */
  method DrainEntry(recs: seq<ClientRecord>, ghost s0: seq<Slot>, batch: seq<Entry>, i: int)
    requires IdsIncreasing(recs) && i < |batch| && DrainedUpTo(recs, s0, batch, i)
    modifies recs
    ensures DrainedUpTo(recs, s0, batch, i + 1)
  {
    var e := batch[i];
    assert batch[..i + 1][..i] == batch[..i];
    if e.msg.None? {
      var k := Lookup(recs, e.cid);
      if k.Some? {
        recs[k.value].disconnected := true;
      }
    } else if e.msg.value.Action? {
      var a := ActionValue(e.msg.value.action);
      if a.Some? {
        var k := Lookup(recs, e.cid);
        if k.Some? {
          recs[k.value].latestAction := a.value;
        }
      }
    }
  }

  /** The drain loop, `for cid, msg in to_process`, from the fields `s0` the records start with. */
  method DrainAll(recs: seq<ClientRecord>, ghost s0: seq<Slot>, batch: seq<Entry>)
    requires IdsIncreasing(recs) && |s0| == |recs|
    requires forall k | 0 <= k < |recs| :: s0[k] == SlotOf(recs[k])
    modifies recs
    ensures DrainedUpTo(recs, s0, batch, |batch|)
  {
    assert batch[..0] == [];
    for i := 0 to |batch|
      invariant DrainedUpTo(recs, s0, batch, i)
    {
      DrainEntry(recs, s0, batch, i);
    }
  }

  /** The records not marked disconnected, in order. */
  function Connected(recs: seq<ClientRecord>): (c: seq<ClientRecord>)
    reads recs
    ensures |c| <= |recs| && forall r | r in c :: r in recs && !r.disconnected
  {
    if recs == [] then []
    else
      var last := recs[|recs| - 1];
      Connected(recs[..|recs| - 1]) + (if last.disconnected then [] else [last])
  }

  /** Pruning keeps exactly the records that are not disconnected. */
  lemma {:induction false} ConnectedKeepsLive(recs: seq<ClientRecord>)
    ensures |Connected(recs)| <= |recs|
    ensures forall r | r in Connected(recs) :: r in recs && !r.disconnected
    ensures forall r | r in recs && !r.disconnected :: r in Connected(recs)
  {
    if recs != [] {
      ConnectedKeepsLive(recs[..|recs| - 1]);
      assert recs == recs[..|recs| - 1] + [recs[|recs| - 1]];
    }
  }

  /**
   * Pruning keeps the order of the registry, so its ids stay strictly
   * increasing and no two kept records share a player.
   */
  lemma {:induction false} ConnectedKeepsOrder(recs: seq<ClientRecord>)
    requires IdsIncreasing(recs) && PlayersApart(recs)
    ensures IdsIncreasing(Connected(recs)) && PlayersApart(Connected(recs))
  {
    if recs != [] {
      var init := recs[..|recs| - 1];
      var last := recs[|recs| - 1];
      OrderOfInit(recs);
      ConnectedKeepsOrder(init);
      ConnectedKeepsLive(init);
      var kept := Connected(init);
      assert forall r | r in kept :: r.clientId < last.clientId && r.player != last.player by {
        forall r | r in kept
          ensures r.clientId < last.clientId && r.player != last.player
        {
          var j :| 0 <= j < |init| && init[j] == r;
          assert recs[j] == r;
        }
      }
      if !last.disconnected {
        OrderOfSnoc(kept, last);
      }
    }
  }

  /** Dropping the last record keeps the order. */
  lemma OrderOfInit(recs: seq<ClientRecord>)
    requires recs != [] && IdsIncreasing(recs) && PlayersApart(recs)
    ensures IdsIncreasing(recs[..|recs| - 1]) && PlayersApart(recs[..|recs| - 1])
  {
    var init := recs[..|recs| - 1];
    assert forall j | 0 <= j < |init| :: init[j] == recs[j];
  }

  /** A record with a larger id and its own player can join the end. */
  lemma OrderOfSnoc(kept: seq<ClientRecord>, last: ClientRecord)
    requires IdsIncreasing(kept) && PlayersApart(kept)
    requires forall r | r in kept :: r.clientId < last.clientId && r.player != last.player
    ensures IdsIncreasing(kept + [last]) && PlayersApart(kept + [last])
  {
    var s := kept + [last];
    forall j, k | 0 <= j < k < |s| ensures s[j].clientId < s[k].clientId && s[j].player != s[k].player {
      assert s[j] == kept[j];
      if k < |kept| {
        assert s[k] == kept[k];
      } else {
        assert s[j] in kept;
      }
    }
  }

  // ---------------------------------------------------------------------
  // Snapshots
  // ---------------------------------------------------------------------

  /** _build_player_state: a record's player under the record's id. */
  function PlayerStateOf(r: ClientRecord): (s: PlayerState)
    reads r.player
    ensures s.id == r.clientId && s.health == r.player.health
    ensures s.x == r.player.x && s.y == r.player.y && s.size == r.player.size
  {
    PlayerState(r.clientId, r.player.x, r.player.y, r.player.health, r.player.size)
  }

  /** The objects whose fields the snapshots of a registry read: the players. */
  function PlayersOf(recs: seq<ClientRecord>): (ps: seq<Entity>)
    ensures |ps| == |recs| && forall k | 0 <= k < |recs| :: ps[k] == recs[k].player
  {
    seq(|recs|, k requires 0 <= k < |recs| => recs[k].player)
  }

  /** The player states of all the records, in order. */
  function PlayerStates(recs: seq<ClientRecord>): (ps: seq<PlayerState>)
    reads PlayersOf(recs)
    ensures |ps| == |recs| && forall k | 0 <= k < |recs| :: ps[k] == PlayerStateOf(recs[k])
  {
    if recs == [] then []
    else PlayerStates(recs[..|recs| - 1]) + [PlayerStateOf(recs[|recs| - 1])]
  }

  /** The `players` list of a snapshot: every record whose id is not the recipient's. */
  function OtherPlayers(recs: seq<ClientRecord>, id: int): seq<PlayerState>
    reads PlayersOf(recs)
  {
    if recs == [] then []
    else
      var last := recs[|recs| - 1];
      OtherPlayers(recs[..|recs| - 1], id) + (if last.clientId == id then [] else [PlayerStateOf(last)])
  }

  /** _build_enemy_state. */
  function EnemyStateOf(e: Entity): (s: EnemyState)
    reads e
    ensures s.x == e.x && s.y == e.y && s.size == e.size
  {
    EnemyState(e.x, e.y, e.size)
  }

  /** _build_bullet_state. */
  function BulletStateOf(b: Bullet): (s: BulletState)
    reads b
    ensures s.x == b.x && s.y == b.y && s.size == b.size
    ensures s.velX == b.velX && s.velY == b.velY && s.isFriendly == b.isFriendly
  {
    BulletState(b.x, b.y, b.velX, b.velY, b.isFriendly, b.size)
  }

  /**
   * The update message built for `recs[k]`: its own player as `you`, the
   * other players, and every enemy and bullet in list order.
   */
  function SnapshotFor(recs: seq<ClientRecord>, k: int, enemies: seq<Entity>, bullets: seq<Bullet>): (m: Message)
    requires 0 <= k < |recs|
    reads PlayersOf(recs), enemies, bullets
    ensures m.Update? && m.you == PlayerState(recs[k].clientId, recs[k].player.x, recs[k].player.y,
                                              recs[k].player.health, recs[k].player.size)
    ensures |m.enemies| == |enemies| && forall i | 0 <= i < |enemies| ::
      m.enemies[i] == EnemyState(enemies[i].x, enemies[i].y, enemies[i].size)
    ensures |m.bullets| == |bullets| && forall i | 0 <= i < |bullets| ::
      m.bullets[i] == BulletState(bullets[i].x, bullets[i].y, bullets[i].velX, bullets[i].velY,
                                  bullets[i].isFriendly, bullets[i].size)
  {
    Update(PlayerStateOf(recs[k]), OtherPlayers(recs, recs[k].clientId),
           seq(|enemies|, i requires 0 <= i < |enemies| reads enemies => EnemyStateOf(enemies[i])),
           seq(|bullets|, i requires 0 <= i < |bullets| reads bullets => BulletStateOf(bullets[i])))
  }

  /** Where the recipient's id does not occur, every record is another player. */
  lemma {:induction false} OthersOfAbsentId(recs: seq<ClientRecord>, id: int)
    requires forall j | 0 <= j < |recs| :: recs[j].clientId != id
    ensures OtherPlayers(recs, id) == PlayerStates(recs)
  {
    if recs != [] {
      OthersOfAbsentId(recs[..|recs| - 1], id);
    }
  }

  /**
   * With distinct ids, the other players of `recs[k]`'s snapshot are all
   * the records but `recs[k]`, in registry order: nobody is missing and
   * the recipient is not among them.
   */
  lemma {:induction false} OthersExcludeRecipient(recs: seq<ClientRecord>, k: int)
    requires IdsIncreasing(recs) && 0 <= k < |recs|
    ensures OtherPlayers(recs, recs[k].clientId) == PlayerStates(recs[..k]) + PlayerStates(recs[k + 1..])
    ensures |OtherPlayers(recs, recs[k].clientId)| == |recs| - 1
  {
    var id := recs[k].clientId;
    var init := recs[..|recs| - 1];
    var last := recs[|recs| - 1];
    assert forall j | 0 <= j < |init| :: init[j] == recs[j];
    if k == |recs| - 1 {
      OthersOfAbsentId(init, id);
      assert recs[k + 1..] == [] && recs[..k] == init;
    } else {
      assert init[k] == recs[k] && last.clientId != id;
      SliceOfInit(recs, k);
      calc {
        OtherPlayers(recs, id);
        OtherPlayers(init, id) + [PlayerStateOf(last)];
        { OthersExcludeRecipient(init, k); }
        (PlayerStates(recs[..k]) + PlayerStates(init[k + 1..])) + [PlayerStateOf(last)];
        PlayerStates(recs[..k]) + (PlayerStates(init[k + 1..]) + [PlayerStateOf(last)]);
        { PlayerStatesSnoc(init[k + 1..], last); }
        PlayerStates(recs[..k]) + PlayerStates(recs[k + 1..]);
      }
    }
  }

  /** The slices of a sequence around `k` in terms of the sequence without its last element. */
  lemma SliceOfInit<T>(s: seq<T>, k: int)
    requires 0 <= k < |s| - 1
    ensures s[..|s| - 1][..k] == s[..k]
    ensures s[k + 1..] == s[..|s| - 1][k + 1..] + [s[|s| - 1]]
  {
  }

  /** The player states of a registry with one more record at the end. */
  lemma PlayerStatesSnoc(recs: seq<ClientRecord>, r: ClientRecord)
    ensures PlayerStates(recs + [r]) == PlayerStates(recs) + [PlayerStateOf(r)]
  {
    assert (recs + [r])[..|recs|] == recs;
  }

  // ---------------------------------------------------------------------
  // The passes of a tick
  // ---------------------------------------------------------------------

  /** A random.uniform(0, 360) aim drawn for a player's shot, in whole degrees. */
  type AimDraw = a: int | 0 <= a <= 360

  /** The latest flat action of every record, in registry order. */
  function ActionsOf(recs: seq<ClientRecord>): (fs: seq<int>)
    reads recs
    ensures |fs| == |recs| && forall k | 0 <= k < |recs| :: fs[k] == recs[k].latestAction
  {
    seq(|recs|, k requires 0 <= k < |recs| reads recs => recs[k].latestAction)
  }

  /**
   * One record's turn of the player pass took its player `e` from pose `p`
   * to pose `q`: the flat action `flat` was decoded, the aim became the
   * decoded angle, the player took the decoded direction, moved and lost
   * the damage of `hits`, which left the list `before`, giving `mid`; then
   * Player.shoot, once its timer was due, replaced the aim by the drawn
   * `aim` and appended a shot along it to `mid`, giving `after`.
   */
  ghost predicate PlayerTurned(e: Entity, p: Pose, q: Pose, flat: int, now: real, aim: AimDraw, trig: Trig,
                               before: seq<Bullet>, mid: seq<Bullet>, hits: seq<Bullet>, after: seq<Bullet>)
  {
    var due := Due(p.shootTimer, e.shootTimerMax, now);
    q.action == DecodedAction(flat) &&
    (q.x, q.y) == Moved(p.x, p.y, e.speed, e.size, q.action) &&
    q.health == p.health - TotalDamage(hits) &&
    mid == RemoveAll(before, hits) &&
    Appended(mid, after, due, aim, e.isFriendly, trig) &&
    q.aimAngle == (if due then aim else FlatActionToMoveAndAngle(flat).1) &&
    q.shootTimer == (if due then now else p.shootTimer) &&
    q.lastActionTime == p.lastActionTime
  }

  /**
   * The collision of that turn, which holds until the bullets move: the
   * hits are those of `before` against the player where it stands at pose
   * `q`, and its shot, if any, left from its centre there.
   */
  ghost predicate PlayerHit(e: Entity, q: Pose, before: seq<Bullet>, mid: seq<Bullet>, hits: seq<Bullet>,
                            after: seq<Bullet>)
    reads before, after
  {
    hits == Hits(q.x, q.y, e.size, e.isFriendly, before) &&
    (|after| > |mid| ==> ShotAt(after[|mid|], q.x, q.y, e.size))
  }

  /** Turn `j` of the player pass over `players`, driven by the flat actions `flats`, went as `pass` records. */
  ghost predicate PlayerTurnAt(players: seq<Entity>, flats: seq<int>, pass: Pass, j: int, now: real,
                               aims: seq<AimDraw>, trig: Trig)
  {
    0 <= j < |players| && j < |flats| && j < |aims| && pass.Has(j) &&
    PlayerTurned(players[j], pass.poses[j], pass.ends[j], flats[j], now, aims[j], trig,
                 pass.lists[j], pass.mids[j], pass.hits[j], pass.lists[j + 1])
  }

  /** Turn `j` of the player pass over `players` met its bullets as `pass` records. */
  ghost predicate PlayerHitAt(players: seq<Entity>, pass: Pass, j: int)
    reads if 0 <= j < |pass.lists| then pass.lists[j] else []
    reads if 0 <= j + 1 < |pass.lists| then pass.lists[j + 1] else []
  {
    0 <= j < |players| && pass.Has(j) &&
    PlayerHit(players[j], pass.ends[j], pass.lists[j], pass.mids[j], pass.hits[j], pass.lists[j + 1])
  }

  /**
   * The collision of a player's turn stated against the snapshot `at` of
   * where the bullets stood until they moved: the hits are those of
   * `before` against the player at pose `q`, and its shot, if any, left
   * from its centre there.
   */
  ghost predicate PlayerHitIn(e: Entity, q: Pose, before: seq<Bullet>, mid: seq<Bullet>, hits: seq<Bullet>,
                              after: seq<Bullet>, at: Spots)
  {
    (forall b | b in before :: b in at) && hits == HitsAt(q.x, q.y, e.size, e.isFriendly, before, at) &&
    (|after| > |mid| ==> after[|mid|] in at && at[after[|mid|]] == (Centre(q.x, e.size), Centre(q.y, e.size)))
  }

  /** Turn `j` of the player pass over `players` met its bullets, where `at` records them, as `pass` records. */
  ghost predicate PlayerTurnHitIn(players: seq<Entity>, pass: Pass, j: int, at: Spots)
  {
    0 <= j < |players| && pass.Has(j) &&
    PlayerHitIn(players[j], pass.ends[j], pass.lists[j], pass.mids[j], pass.hits[j], pass.lists[j + 1], at)
  }

  /** The first `i` turns of the player pass went as `pass` records. */
  ghost predicate PlayersTurnedUpTo(players: seq<Entity>, flats: seq<int>, i: int, pass: Pass, now: real,
                                    aims: seq<AimDraw>, trig: Trig)
  {
    0 <= i <= |players| && |flats| == |players| && |aims| >= |players| && pass.Over(i) &&
    forall j | 0 <= j < i :: PlayerTurnAt(players, flats, pass, j, now, aims, trig)
  }

  /** The player pass over `players`, driven by the flat actions `flats`, went turn by turn as `pass` records. */
  ghost predicate PlayersTurned(players: seq<Entity>, flats: seq<int>, pass: Pass, now: real, aims: seq<AimDraw>,
                                trig: Trig)
  {
    PlayersTurnedUpTo(players, flats, |players|, pass, now, aims, trig)
  }

  /** A pass that went as recorded for `i` turns, followed by turn `i` as recorded. */
  lemma PlayersTurnedUpToSnoc(players: seq<Entity>, flats: seq<int>, i: int, pass: Pass, now: real,
                              aims: seq<AimDraw>, trig: Trig,
                              p: Pose, q: Pose, mid: seq<Bullet>, hits: seq<Bullet>, after: seq<Bullet>)
    requires PlayersTurnedUpTo(players, flats, i, pass, now, aims, trig) && i < |players|
    requires PlayerTurned(players[i], p, q, flats[i], now, aims[i], trig, pass.lists[i], mid, hits, after)
    ensures PlayersTurnedUpTo(players, flats, i + 1, pass.Then(p, q, mid, hits, after), now, aims, trig)
  {
    var pass' := pass.Then(p, q, mid, hits, after);
    forall j | 0 <= j < i + 1
      ensures PlayerTurnAt(players, flats, pass', j, now, aims, trig)
    {
      if j < i {
        assert PlayerTurnAt(players, flats, pass, j, now, aims, trig);
        assert pass'.poses[j] == pass.poses[j] && pass'.ends[j] == pass.ends[j];
        assert pass'.lists[j] == pass.lists[j] && pass'.lists[j + 1] == pass.lists[j + 1];
        assert pass'.mids[j] == pass.mids[j] && pass'.hits[j] == pass.hits[j];
      }
    }
  }

  /**
   * The movement part of a record's turn: its latest flat action is
   * decoded, the aim is set to the decoded angle, the player moves in the
   * decoded direction and is hit, and the bullets that hit it leave the
   * list.
   */
  method Steered(p: Entity, flatAction: int, bullets: seq<Bullet>) returns (after: seq<Bullet>, hits: seq<Bullet>)
    requires Distinct(bullets)
    modifies p
    ensures p.action == DecodedAction(flatAction) && p.InBounds()
    ensures (p.x, p.y) == Moved(old(p.x), old(p.y), p.speed, p.size, p.action)
    ensures hits == Hits(p.x, p.y, p.size, p.isFriendly, bullets)
    ensures p.health == old(p.health) - TotalDamage(hits)
    ensures p.aimAngle == FlatActionToMoveAndAngle(flatAction).1
    ensures p.shootTimer == old(p.shootTimer) && p.lastActionTime == old(p.lastActionTime)
    ensures after == RemoveAll(bullets, hits)
    ensures Distinct(after) && forall b | b in after :: b in bullets
  {
    var angle := FlatActionToMoveAndAngle(flatAction).1;
    p.aimAngle := angle;
    hits := p.Drive(DecodedAction(flatAction), bullets);
    after := RemoveEach(bullets, hits);
  }

  /** `pb = rec.player.shoot(current_time)`: a shot, if the timer is due, joins the end of the list. */
  method Fire(p: Entity, now: real, aim: AimDraw, trig: Trig, bullets: seq<Bullet>) returns (after: seq<Bullet>)
    requires Distinct(bullets)
    modifies p`aimAngle, p`shootTimer
    ensures Appended(bullets, after, Due(old(p.shootTimer), p.shootTimerMax, now), aim, p.isFriendly, trig)
    ensures Due(old(p.shootTimer), p.shootTimerMax, now) ==>
      fresh(after[|bullets|]) && ShotAt(after[|bullets|], p.x, p.y, p.size) && p.aimAngle == aim && p.shootTimer == now
    ensures !Due(old(p.shootTimer), p.shootTimerMax, now) ==>
      p.aimAngle == old(p.aimAngle) && p.shootTimer == old(p.shootTimer)
    ensures Distinct(after)
  {
    after := bullets;
    var shot := p.PlayerShoot(now, aim, trig);
    if shot.Some? {
      DistinctAppend(after, shot.value);
      after := after + [shot.value];
      assert after[..|bullets|] == bullets;
    }
  }

  /**
   * A record's turn of the player pass, seen from its player: it moves as
   * the flat action says and is hit, the hits leave the list, giving
   * `mid`, and it may shoot, giving `after`.
   */
  method PlayerMoves(p: Entity, flatAction: int, now: real, aim: AimDraw, trig: Trig, bullets: seq<Bullet>)
    returns (after: seq<Bullet>, mid: seq<Bullet>, hits: seq<Bullet>)
    requires Distinct(bullets)
    modifies p
    ensures PlayerTurned(p, old(PoseOf(p)), PoseOf(p), flatAction, now, aim, trig, bullets, mid, hits, after)
    ensures PlayerHit(p, PoseOf(p), bullets, mid, hits, after)
    ensures |after| > |mid| ==> fresh(after[|mid|])
    ensures Distinct(after) && p.InBounds()
    ensures forall b | b in after :: b in bullets || (|after| > |mid| && b == after[|mid|])
  {
    mid, hits := Steered(p, flatAction, bullets);
    after := Fire(p, now, aim, trig, mid);
    if |after| > |mid| {
      assert after == mid + [after[|mid|]];
    }
  }

  /**
   * The players' fields as the player pass leaves them after its first `i`
   * turns: those that took their turn started from their pose in `poses0`,
   * stand at the pose `pass` recorded after it and are inside the world;
   * the rest still stand at their pose in `poses0`.
   */
  ghost predicate PlayersPosed(players: seq<Entity>, i: int, pass: Pass, poses0: seq<Pose>)
    reads players
  {
    0 <= i <= |players| == |poses0| && |pass.poses| == |pass.ends| == i &&
    (forall j | 0 <= j < i ::
      pass.poses[j] == poses0[j] && pass.ends[j] == PoseOf(players[j]) && players[j].InBounds()) &&
    (forall j | i <= j < |players| :: PoseOf(players[j]) == poses0[j])
  }

  /** The `i`-th turn of the player pass: record `i`'s player takes its turn and `pass` gains it. */
  method PlayerStep(recs: seq<ClientRecord>, i: int, now: real, aims: seq<AimDraw>, trig: Trig,
                    bullets: seq<Bullet>, ghost flats: seq<int>, ghost players: seq<Entity>,
                    ghost start: seq<Bullet>, ghost born: set<Bullet>, ghost pass: Pass, ghost poses0: seq<Pose>)
    returns (after: seq<Bullet>, ghost shots: set<Bullet>, ghost pass': Pass)
    requires i < |recs| && players == PlayersOf(recs) && PlayersApart(recs)
    requires Distinct(bullets) && FromOrBorn(bullets, start, born)
    requires PlayersTurnedUpTo(players, flats, i, pass, now, aims, trig) && pass.lists[i] == bullets
    requires flats[i] == recs[i].latestAction
    requires forall j | 0 <= j < i :: PlayerHitAt(players, pass, j)
    requires PlayersPosed(players, i, pass, poses0)
    modifies recs[i].player
    ensures Distinct(after) && fresh(shots) && FromOrBorn(after, start, born + shots)
    ensures PlayersTurnedUpTo(players, flats, i + 1, pass', now, aims, trig)
    ensures forall j | 0 <= j < i + 1 :: PlayerHitAt(players, pass', j)
    ensures pass'.lists[i + 1] == after && pass'.lists[0] == pass.lists[0]
    ensures PlayersPosed(players, i + 1, pass', poses0)
  {
    var p := recs[i].player;
    ghost var before := PoseOf(p);
    var mid, hits;
    after, mid, hits := PlayerMoves(p, recs[i].latestAction, now, aims[i], trig, bullets);
    ghost var q := PoseOf(p);
    pass' := pass.Then(before, q, mid, hits, after);
    shots := if |after| > |mid| then {after[|mid|]} else {};
    forall j | 0 <= j < |players| && j != i
      ensures PoseOf(players[j]) == old(PoseOf(players[j]))
    {
      assert players[j] == recs[j].player && recs[j].player != recs[i].player;
    }
    forall j | 0 <= j < i + 1
      ensures PlayerHitAt(players, pass', j)
      ensures pass'.poses[j] == poses0[j] && pass'.ends[j] == PoseOf(players[j]) && players[j].InBounds()
    {
      if j < i {
        assert PlayerHitAt(players, pass, j);
        assert pass'.poses[j] == pass.poses[j] && pass'.ends[j] == pass.ends[j] && pass'.lists[j] == pass.lists[j];
        assert pass'.mids[j] == pass.mids[j] && pass'.hits[j] == pass.hits[j];
        assert pass'.lists[j + 1] == pass.lists[j + 1];
      }
    }
    PlayersTurnedUpToSnoc(players, flats, i, pass, now, aims, trig, before, q, mid, hits, after);
  }

  /** The loop of the player pass, `for rec in player_list`, from the players' poses `poses0`. */
  method PlayerLoop(recs: seq<ClientRecord>, now: real, aims: seq<AimDraw>, trig: Trig, bullets: seq<Bullet>,
                    ghost flats: seq<int>, ghost players: seq<Entity>, ghost poses0: seq<Pose>)
    returns (after: seq<Bullet>, ghost born: set<Bullet>, ghost pass: Pass)
    requires players == PlayersOf(recs) && PlayersApart(recs) && |aims| >= |recs| && Distinct(bullets)
    requires flats == ActionsOf(recs)
    requires |poses0| == |recs| && forall j | 0 <= j < |recs| :: PoseOf(players[j]) == poses0[j]
    modifies players
    ensures Distinct(after) && fresh(born) && FromOrBorn(after, bullets, born)
    ensures PlayersTurnedUpTo(players, flats, |recs|, pass, now, aims, trig)
    ensures forall j | 0 <= j < |recs| :: PlayerHitAt(players, pass, j)
    ensures pass.lists[0] == bullets && pass.lists[|recs|] == after
    ensures PlayersPosed(players, |recs|, pass, poses0)
  {
    after := bullets;
    born := {};
    pass := Pass([], [], [bullets], [], []);
    for i := 0 to |recs|
      invariant Distinct(after) && fresh(born) && FromOrBorn(after, bullets, born)
      invariant PlayersTurnedUpTo(players, flats, i, pass, now, aims, trig)
      invariant forall j | 0 <= j < i :: PlayerHitAt(players, pass, j)
      invariant pass.lists[0] == bullets && pass.lists[i] == after
      invariant PlayersPosed(players, i, pass, poses0)
    {
      ghost var shots;
      after, shots, pass := PlayerStep(recs, i, now, aims, trig, after, flats, players, bullets, born, pass, poses0);
      born := born + shots;
    }
  }

  /**
   * The player pass, `for rec in player_list`, with one drawn aim per
   * record: `pass` records every turn, from the list `bullets` to `after`.
   */
  method PlayersAct(recs: seq<ClientRecord>, now: real, aims: seq<AimDraw>, trig: Trig, bullets: seq<Bullet>)
    returns (after: seq<Bullet>, ghost pass: Pass)
    requires PlayersApart(recs) && |aims| >= |recs| && Distinct(bullets)
    modifies PlayersOf(recs)
    ensures PlayersTurned(PlayersOf(recs), ActionsOf(recs), pass, now, aims, trig)
    ensures forall j | 0 <= j < |recs| :: PlayerHitAt(PlayersOf(recs), pass, j)
    ensures forall j | 0 <= j < |recs| ::
      pass.poses[j] == old(PoseOf(recs[j].player)) && pass.ends[j] == PoseOf(recs[j].player) &&
      recs[j].player.InBounds()
    ensures pass.lists[0] == bullets && pass.lists[|recs|] == after
    ensures Distinct(after) && forall i | 0 <= i < |after| :: after[i] in bullets || fresh(after[i])
  {
    ghost var players := PlayersOf(recs);
    ghost var flats := ActionsOf(recs);
    ghost var poses0 := seq(|recs|, j requires 0 <= j < |recs| reads players => PoseOf(players[j]));
    ghost var born;
    after, born, pass := PlayerLoop(recs, now, aims, trig, bullets, flats, players, poses0);
  }

  /**
   * The squared distance between the centres of an enemy standing at pose
   * `p` and a player standing at pose `s`, both squares of ENTITY_SIZE.
   */
  function SeatDist2(p: Pose, s: Pose): int
  {
    var dx := Centre(s.x, EntitySize) - Centre(p.x, EntitySize);
    var dy := Centre(s.y, EntitySize) - Centre(p.y, EntitySize);
    dx * dx + dy * dy
  }

  /** `seats` are the poses of `players`, in order. */
  ghost predicate SeatedAt(players: seq<Entity>, seats: seq<Pose>)
    reads players
  {
    |seats| == |players| && forall j | 0 <= j < |players| :: seats[j] == PoseOf(players[j])
  }

  /** No player standing at `seats` has health left. */
  ghost predicate NoneAlive(seats: seq<Pose>)
  {
    forall j | 0 <= j < |seats| :: seats[j].health <= 0
  }

  /**
   * The player at `seats[k]` is the living player nearest to an enemy at
   * pose `p`, and no living player before it is as near.
   */
  ghost predicate NearestSeat(p: Pose, seats: seq<Pose>, k: int)
  {
    0 <= k < |seats| && seats[k].health > 0 &&
    (forall j | 0 <= j < |seats| && seats[j].health > 0 :: SeatDist2(p, seats[k]) <= SeatDist2(p, seats[j])) &&
    (forall j | 0 <= j < k && seats[j].health > 0 :: SeatDist2(p, seats[k]) < SeatDist2(p, seats[j]))
  }

  /** The nearest player of _nearest_player, read off the players' poses. */
  lemma NearestAmongIsNearestSeat(enemy: Entity, players: seq<Entity>, seats: seq<Pose>, k: int)
    requires SeatedAt(players, seats)
    ensures NearestAmong(enemy, players, |players|, k) <==> NearestSeat(PoseOf(enemy), seats, k)
  {
    forall j | 0 <= j < |players|
      ensures CentreDist2(enemy, players[j]) == SeatDist2(PoseOf(enemy), seats[j])
    {
    }
  }

  /**
   * An enemy with no target took its turn from pose `p` to pose `q`
   * (`enemy.update_position(delta_time)`): it moved by its current action
   * and nothing else about it changed.
   */
  ghost predicate EnemyDrifted(e: Entity, p: Pose, q: Pose)
  {
    (q.x, q.y) == Moved(p.x, p.y, e.speed, e.size, p.action) && q == p.(x := q.x, y := q.y)
  }

  /**
   * One enemy's turn of the server's enemy pass took enemy `e` from pose
   * `p` to pose `q`: with no living player among `seats` it only drifted
   * and the list stayed as it was; otherwise `target` names the nearest
   * living player as the enemy stood at `p`, and the enemy took its turn
   * of the game loop against that player's centre.
   */
  ghost predicate HuntTurned(e: Entity, p: Pose, q: Pose, seats: seq<Pose>, target: Option<int>, now: real,
                             pick: ChoiceIndex, trig: Trig,
                             before: seq<Bullet>, mid: seq<Bullet>, hits: seq<Bullet>, after: seq<Bullet>)
  {
    match target
    case None =>
      NoneAlive(seats) && EnemyDrifted(e, p, q) && mid == before && hits == [] && after == before
    case Some(k) =>
      NearestSeat(p, seats, k) &&
      EnemyTurned(e, p, q, Centre(seats[k].x, EntitySize), Centre(seats[k].y, EntitySize), now, pick, trig,
                  before, mid, hits, after)
  }

  /** Turn `j` of the server's enemy pass over `es`, against the players at `seats`, went as `pass` and `targets` record. */
  ghost predicate HuntAt(es: seq<Entity>, seats: seq<Pose>, pass: Pass, targets: seq<Option<int>>, j: int, now: real,
                         picks: seq<ChoiceIndex>, trig: Trig)
  {
    0 <= j < |es| && j < |picks| && j < |targets| && pass.Has(j) &&
    HuntTurned(es[j], pass.poses[j], pass.ends[j], seats, targets[j], now, picks[j], trig,
               pass.lists[j], pass.mids[j], pass.hits[j], pass.lists[j + 1])
  }

  /** A turn of the server's enemy pass that had a target met its bullets as `pass` records. */
  ghost predicate HuntHitAt(es: seq<Entity>, pass: Pass, targets: seq<Option<int>>, j: int)
    reads if 0 <= j < |pass.mids| then pass.mids[j] else []
  {
    0 <= j < |targets| && (targets[j].Some? ==> HitAt(es, pass, j))
  }

  /** A turn of the server's enemy pass that had a target met its bullets, where `at` records them, as `pass` records. */
  ghost predicate HuntHitIn(es: seq<Entity>, pass: Pass, targets: seq<Option<int>>, j: int, at: Spots)
  {
    0 <= j < |targets| && (targets[j].Some? ==> HitIn(es, pass, j, at))
  }

  /**
   * A snapshot of where the bullets of `start`, still where `from` records
   * them, and of every list of the player pass `ppass` and the enemy pass
   * `epass` stand: every player's and every targeting enemy's collision
   * holds against it.
   */
  lemma SnapshotTick(players: seq<Entity>, ppass: Pass, es: seq<Entity>, epass: Pass, targets: seq<Option<int>>,
                     start: seq<Bullet>, from: Spots)
    returns (at: Spots)
    requires ppass.Over(|players|) && forall j | 0 <= j < |players| :: PlayerHitAt(players, ppass, j)
    requires epass.Over(|es|) && forall j | 0 <= j < |es| :: HuntHitAt(es, epass, targets, j)
    requires Stood(start, from)
    ensures forall b | b in start :: b in at && at[b] == from[b]
    ensures Stood(epass.lists[|es|], at)
    ensures forall j | 0 <= j < |players| :: PlayerTurnHitIn(players, ppass, j, at)
    ensures forall j | 0 <= j < |es| :: HuntHitIn(es, epass, targets, j, at)
  {
    var s := (set b | b in start) + PassBullets(ppass) + PassBullets(epass);
    at := SpotsOf(s);
    SpotsStood(start, s);
    SpotsStood(epass.lists[|es|], s);
    forall j | 0 <= j < |players|
      ensures PlayerTurnHitIn(players, ppass, j, at)
    {
      assert PlayerHitAt(players, ppass, j);
      SpotsStood(ppass.lists[j], s);
      SpotsStood(ppass.lists[j + 1], s);
      var e, q := players[j], ppass.ends[j];
      HitsAtNow(q.x, q.y, e.size, e.isFriendly, ppass.lists[j], at);
    }
    forall j | 0 <= j < |es|
      ensures HuntHitIn(es, epass, targets, j, at)
    {
      assert HuntHitAt(es, epass, targets, j);
      if targets[j].Some? {
        SpotsStood(epass.mids[j], s);
        HitAtStood(es, epass, j, at);
      }
    }
  }

  /** The first `i` turns of the server's enemy pass went as `pass` and `targets` record. */
  ghost predicate HuntedUpTo(es: seq<Entity>, seats: seq<Pose>, i: int, pass: Pass, targets: seq<Option<int>>,
                             now: real, picks: seq<ChoiceIndex>, trig: Trig)
  {
    0 <= i <= |es| && |picks| >= |es| && pass.Over(i) && |targets| == i &&
    forall j | 0 <= j < i :: HuntAt(es, seats, pass, targets, j, now, picks, trig)
  }

  /** The server's enemy pass over `es`, against the players at `seats`, went turn by turn as recorded. */
  ghost predicate EnemiesHunted(es: seq<Entity>, seats: seq<Pose>, pass: Pass, targets: seq<Option<int>>,
                                now: real, picks: seq<ChoiceIndex>, trig: Trig)
  {
    HuntedUpTo(es, seats, |es|, pass, targets, now, picks, trig)
  }

  /** A pass that went as recorded for `i` turns, followed by turn `i` as recorded. */
  lemma HuntedUpToSnoc(es: seq<Entity>, seats: seq<Pose>, i: int, pass: Pass, targets: seq<Option<int>>, now: real,
                       picks: seq<ChoiceIndex>, trig: Trig, target: Option<int>,
                       p: Pose, q: Pose, mid: seq<Bullet>, hits: seq<Bullet>, after: seq<Bullet>)
    requires HuntedUpTo(es, seats, i, pass, targets, now, picks, trig) && i < |es|
    requires HuntTurned(es[i], p, q, seats, target, now, picks[i], trig, pass.lists[i], mid, hits, after)
    ensures HuntedUpTo(es, seats, i + 1, pass.Then(p, q, mid, hits, after), targets + [target], now, picks, trig)
  {
    var pass' := pass.Then(p, q, mid, hits, after);
    var targets' := targets + [target];
    forall j | 0 <= j < i + 1
      ensures HuntAt(es, seats, pass', targets', j, now, picks, trig)
    {
      if j < i {
        assert HuntAt(es, seats, pass, targets, j, now, picks, trig);
        assert pass'.poses[j] == pass.poses[j] && pass'.ends[j] == pass.ends[j];
        assert pass'.lists[j] == pass.lists[j] && pass'.lists[j + 1] == pass.lists[j + 1];
        assert pass'.mids[j] == pass.mids[j] && pass'.hits[j] == pass.hits[j] && targets'[j] == targets[j];
      }
    }
  }

  /** `enemy.update_position(delta_time)` for an enemy with no target: it moves by its current action. */
  method Drift(enemy: Entity)
    modifies enemy`x, enemy`y
    ensures EnemyDrifted(enemy, old(PoseOf(enemy)), PoseOf(enemy)) && enemy.InBounds()
  {
    enemy.UpdatePosition();
  }

  /**
   * One enemy's turn of the server's enemy pass: it looks for the nearest
   * living player; with none it only drifts, otherwise it takes its turn
   * as in the game loop against that player. `mid` is the list with its
   * shot, if any.
   */
  method HuntTurn(players: seq<Entity>, ghost seats: seq<Pose>, enemy: Entity, now: real, pick: ChoiceIndex,
                  trig: Trig, bullets: seq<Bullet>)
    returns (after: seq<Bullet>, mid: seq<Bullet>, hits: seq<Bullet>, engaged: bool, ghost target: Option<int>)
    requires SeatedAt(players, seats) && enemy !in players && Distinct(bullets)
    modifies enemy
    ensures engaged == target.Some? && (!engaged ==> enemy.health == old(enemy.health))
    ensures HuntTurned(enemy, old(PoseOf(enemy)), PoseOf(enemy), seats, target, now, pick, trig, bullets, mid, hits, after)
    ensures target.Some? ==> EnemyHit(enemy, old(PoseOf(enemy)), PoseOf(enemy), bullets, mid, hits)
    ensures |mid| > |bullets| ==> fresh(mid[|bullets|])
    ensures Distinct(after) && enemy.InBounds()
    ensures forall b | b in after :: b in bullets || (|mid| > |bullets| && b == mid[|bullets|])
  {
    var best, k := NearestPlayer(enemy, players);
    engaged := best.Some?;
    if best.None? {
      target := None;
      Drift(enemy);
      after, mid, hits := bullets, bullets, [];
    } else {
      target := Some(k);
      NearestAmongIsNearestSeat(enemy, players, seats, k);
      after, mid, hits := EnemyTurn(enemy, best.value, now, bullets, pick, trig);
      ArmedMembers(bullets, mid, after);
    }
  }

  /**
   * The `i`-th turn of the server's enemy pass as `pass` and `targets`
   * record it: enemy `i` takes its turn against the players at `seats`.
   */
  method HuntPassTurn(players: seq<Entity>, enemies: seq<Entity>, i: int, now: real, picks: seq<ChoiceIndex>,
                      trig: Trig, bullets: seq<Bullet>, ghost seats: seq<Pose>, ghost pass: Pass,
                      ghost targets: seq<Option<int>>)
    returns (after: seq<Bullet>, mid: seq<Bullet>, engaged: bool, ghost pass': Pass, ghost targets': seq<Option<int>>)
    requires 0 <= i < |enemies| && SeatedAt(players, seats) && enemies[i] !in players && Distinct(bullets)
    requires HuntedUpTo(enemies, seats, i, pass, targets, now, picks, trig) && pass.lists[i] == bullets
    requires forall j | 0 <= j < i :: HuntHitAt(enemies, pass, targets, j)
    modifies enemies[i]
    ensures HuntedUpTo(enemies, seats, i + 1, pass', targets', now, picks, trig)
    ensures forall j | 0 <= j < i + 1 :: HuntHitAt(enemies, pass', targets', j)
    ensures engaged == targets'[i].Some? && (!engaged ==> enemies[i].health == old(enemies[i].health))
    ensures pass'.lists[i + 1] == after && pass'.lists[0] == pass.lists[0]
    ensures pass'.poses == pass.poses + [old(PoseOf(enemies[i]))]
    ensures pass'.ends == pass.ends + [PoseOf(enemies[i])]
    ensures |mid| > |bullets| ==> fresh(mid[|bullets|])
    ensures Distinct(after) && enemies[i].InBounds()
    ensures forall b | b in after :: b in bullets || (|mid| > |bullets| && b == mid[|bullets|])
  {
    ghost var p := PoseOf(enemies[i]);
    var hits;
    ghost var target;
    after, mid, hits, engaged, target := HuntTurn(players, seats, enemies[i], now, picks[i], trig, bullets);
    ghost var q := PoseOf(enemies[i]);
    pass' := pass.Then(p, q, mid, hits, after);
    targets' := targets + [target];
    forall j | 0 <= j < i + 1
      ensures HuntHitAt(enemies, pass', targets', j)
    {
      if j < i {
        assert HuntHitAt(enemies, pass, targets, j);
        assert pass'.poses[j] == pass.poses[j] && pass'.ends[j] == pass.ends[j] && pass'.lists[j] == pass.lists[j];
        assert pass'.mids[j] == pass.mids[j] && pass'.hits[j] == pass.hits[j] && targets'[j] == targets[j];
      }
    }
    HuntedUpToSnoc(enemies, seats, i, pass, targets, now, picks, trig, target, p, q, mid, hits, after);
  }

  /**
   * The server's enemy pass after its first `i` enemies: the pass so far as
   * in the game loop, and the enemies still to come have health.
   */
  ghost predicate Hunted(enemies: seq<Entity>, i: int, alive: seq<Entity>, dead: seq<bool>)
    reads enemies
  {
    EnemiesTaken(enemies, i, alive, dead) && forall j | i <= j < |enemies| :: enemies[j].health > 0
  }

  /**
   * The `i`-th turn of the server's enemy pass: enemy `i` takes its turn;
   * one that had a target leaves the list if it died (`continue` skips
   * that check for one without, whose health has not changed).
   */
  method HuntStep(players: seq<Entity>, enemies: seq<Entity>, i: int, now: real, picks: seq<ChoiceIndex>, trig: Trig,
                  alive: seq<Entity>, bullets: seq<Bullet>, ghost dead: seq<bool>,
                  ghost start: seq<Bullet>, ghost born: set<Bullet>, ghost seats: seq<Pose>, ghost pass: Pass,
                  ghost targets: seq<Option<int>>, ghost poses0: seq<Pose>)
    returns (alive': seq<Entity>, after: seq<Bullet>, ghost dead': seq<bool>, ghost shots: set<Bullet>,
             ghost pass': Pass, ghost targets': seq<Option<int>>)
    requires i < |enemies| && Distinct(enemies) && SeatedAt(players, seats)
    requires forall j | 0 <= j < |players| :: players[j] !in enemies
    requires Hunted(enemies, i, alive, dead)
    requires Distinct(bullets) && FromOrBorn(bullets, start, born)
    requires HuntedUpTo(enemies, seats, i, pass, targets, now, picks, trig) && pass.lists[i] == bullets
    requires forall j | 0 <= j < i :: HuntHitAt(enemies, pass, targets, j)
    requires Posed(enemies, i, pass, poses0)
    modifies enemies[i]
    ensures Hunted(enemies, i + 1, alive', dead')
    ensures Distinct(after) && fresh(shots) && FromOrBorn(after, start, born + shots)
    ensures HuntedUpTo(enemies, seats, i + 1, pass', targets', now, picks, trig)
    ensures forall j | 0 <= j < i + 1 :: HuntHitAt(enemies, pass', targets', j)
    ensures pass'.lists[i + 1] == after && pass'.lists[0] == pass.lists[0]
    ensures Posed(enemies, i + 1, pass', poses0)
    ensures SeatedAt(players, seats)
  {
    DistinctSplit(enemies, i);
    var mid, engaged;
    label Turn:
    after, mid, engaged, pass', targets' := HuntPassTurn(players, enemies, i, now, picks, trig, bullets, seats, pass, targets);
    forall j | 0 <= j < |enemies| && j != i
      ensures PoseOf(enemies[j]) == old@Turn(PoseOf(enemies[j]))
    {
      assert enemies[j] != enemies[i];
    }
    forall j | 0 <= j < i + 1
      ensures pass'.poses[j] == poses0[j] && pass'.ends[j] == PoseOf(enemies[j])
    {
      if j < i {
        assert pass'.poses[j] == pass.poses[j] && pass'.ends[j] == pass.ends[j];
      }
    }
    assert EnemiesTaken(enemies, i, alive, dead);
    shots := if |mid| > |bullets| then {mid[|bullets|]} else {};
    alive', dead' := HuntDrop(enemies, i, alive, dead, engaged);
  }

  /**
   * The end of an enemy's turn of the server's enemy pass: one that had a
   * target leaves the list once its health is gone; one without passes
   * over the check with `continue`, its health untouched and positive.
   */
  method HuntDrop(enemies: seq<Entity>, i: int, alive: seq<Entity>, ghost dead: seq<bool>, engaged: bool)
    returns (alive': seq<Entity>, ghost dead': seq<bool>)
    requires 0 <= i < |enemies| && enemies[i] !in enemies[..i]
    requires EnemiesTaken(enemies, i, alive, dead) && enemies[i].InBounds()
    requires !engaged ==> enemies[i].health > 0
    ensures dead' == dead + [enemies[i].health <= 0]
    ensures EnemiesTaken(enemies, i + 1, alive', dead')
  {
    if !engaged {
      UnflaggedStep(enemies, i, dead, alive, false);
      alive', dead' := alive, dead + [false];
    } else {
      alive', dead' := DropIfDead(enemies, i, alive, dead);
    }
  }

  /**
   * The loop of the server's enemy pass, `for enemy in enemies[:]`, against
   * the players at `seats`, from the enemies' poses `poses0`.
   */
  method HuntLoop(players: seq<Entity>, enemies: seq<Entity>, bullets: seq<Bullet>, now: real,
                  picks: seq<ChoiceIndex>, trig: Trig, ghost seats: seq<Pose>, ghost poses0: seq<Pose>)
    returns (alive: seq<Entity>, after: seq<Bullet>, ghost dead: seq<bool>, ghost born: set<Bullet>,
             ghost pass: Pass, ghost targets: seq<Option<int>>)
    requires Distinct(enemies) && Distinct(bullets) && |picks| >= |enemies| && SeatedAt(players, seats)
    requires forall j | 0 <= j < |players| :: players[j] !in enemies
    requires forall j | 0 <= j < |enemies| :: enemies[j].health > 0
    requires |poses0| == |enemies| && forall j | 0 <= j < |enemies| :: PoseOf(enemies[j]) == poses0[j]
    modifies enemies
    ensures Hunted(enemies, |enemies|, alive, dead)
    ensures Distinct(after) && fresh(born) && FromOrBorn(after, bullets, born)
    ensures HuntedUpTo(enemies, seats, |enemies|, pass, targets, now, picks, trig)
    ensures forall j | 0 <= j < |enemies| :: HuntHitAt(enemies, pass, targets, j)
    ensures pass.lists[0] == bullets && pass.lists[|enemies|] == after
    ensures Posed(enemies, |enemies|, pass, poses0)
  {
    alive := enemies;
    after := bullets;
    dead := [];
    born := {};
    pass := Pass([], [], [bullets], [], []);
    targets := [];
    for i := 0 to |enemies|
      invariant SeatedAt(players, seats)
      invariant Hunted(enemies, i, alive, dead)
      invariant Distinct(after) && fresh(born) && FromOrBorn(after, bullets, born)
      invariant HuntedUpTo(enemies, seats, i, pass, targets, now, picks, trig)
      invariant forall j | 0 <= j < i :: HuntHitAt(enemies, pass, targets, j)
      invariant pass.lists[0] == bullets && pass.lists[i] == after
      invariant Posed(enemies, i, pass, poses0)
    {
      ghost var shots;
      alive, after, dead, shots, pass, targets :=
        HuntStep(players, enemies, i, now, picks, trig, alive, after, dead, bullets, born, seats, pass, targets, poses0);
      born := born + shots;
    }
  }

  /**
   * The server's enemy pass, `for enemy in enemies[:]`, against the players
   * of the tick, standing at `seats`: `pass` and `targets` record every
   * turn, from the list `bullets` to `after`.
   */
  method HuntPass(players: seq<Entity>, enemies: seq<Entity>, bullets: seq<Bullet>, now: real,
                  picks: seq<ChoiceIndex>, trig: Trig, ghost seats: seq<Pose>)
    returns (alive: seq<Entity>, after: seq<Bullet>, ghost dead: seq<bool>, ghost born: set<Bullet>,
             ghost pass: Pass, ghost targets: seq<Option<int>>)
    requires Distinct(enemies) && Distinct(bullets) && |picks| >= |enemies| && SeatedAt(players, seats)
    requires forall j | 0 <= j < |players| :: players[j] !in enemies
    requires forall j | 0 <= j < |enemies| :: enemies[j].health > 0
    modifies enemies
    ensures Hunted(enemies, |enemies|, alive, dead)
    ensures Distinct(after) && fresh(born) && FromOrBorn(after, bullets, born)
    ensures SeatedAt(players, seats)
    ensures EnemiesHunted(enemies, seats, pass, targets, now, picks, trig)
    ensures forall j | 0 <= j < |enemies| :: HuntHitAt(enemies, pass, targets, j)
    ensures pass.lists[0] == bullets && pass.lists[|enemies|] == after
    ensures forall j | 0 <= j < |enemies| :: pass.poses[j] == old(PoseOf(enemies[j])) && pass.ends[j] == PoseOf(enemies[j])
  {
    ghost var poses0 := seq(|enemies|, j requires 0 <= j < |enemies| reads enemies => PoseOf(enemies[j]));
    alive, after, dead, born, pass, targets := HuntLoop(players, enemies, bullets, now, picks, trig, seats, poses0);
  }

  /** The server's enemy pass seen from the world: who survives, in order, and how the bullet list evolved. */
  method EnemiesHunt(players: seq<Entity>, enemies: seq<Entity>, bullets: seq<Bullet>, now: real,
                     picks: seq<ChoiceIndex>, trig: Trig, ghost seats: seq<Pose>, ghost start: seq<Bullet>,
                     ghost from: Spots)
    returns (alive: seq<Entity>, after: seq<Bullet>, ghost pass: Pass, ghost targets: seq<Option<int>>)
    requires Distinct(enemies) && Distinct(bullets) && |picks| >= |enemies| && SeatedAt(players, seats)
    requires Stood(start, from)
    requires forall j | 0 <= j < |players| :: players[j] !in enemies
    requires forall j | 0 <= j < |enemies| :: enemies[j].health > 0
    modifies enemies
    ensures forall e | e in alive :: e in enemies && e.health > 0 && e.InBounds()
    ensures forall e | e in enemies && e.health > 0 :: e in alive
    ensures Distinct(alive) && Distinct(after)
    ensures forall i | 0 <= i < |after| :: after[i] in bullets || fresh(after[i])
    ensures SeatedAt(players, seats)
    ensures EnemiesHunted(enemies, seats, pass, targets, now, picks, trig)
    ensures forall j | 0 <= j < |enemies| :: HuntHitAt(enemies, pass, targets, j)
    ensures pass.lists[0] == bullets && pass.lists[|enemies|] == after
    ensures forall j | 0 <= j < |enemies| :: pass.poses[j] == old(PoseOf(enemies[j])) && pass.ends[j] == PoseOf(enemies[j])
    ensures alive == LivingAt(enemies, pass.ends)
    ensures Stood(start, from)
  {
    ghost var dead, born;
    alive, after, dead, born, pass, targets := HuntPass(players, enemies, bullets, now, picks, trig, seats);
    assert enemies[..|enemies|] == enemies;
    UnflaggedDistinct(enemies, dead);
    UnflaggedIsLivingAt(enemies, dead, pass.ends);
    SurvivorsAreAlive(enemies, dead);
  }

  /**
   * A well-formed registry below the id counter `next`: ids strictly
   * increase and lie in [0, next), and every record has its own player,
   * inside the world.
   */
  ghost predicate RegistryOk(recs: seq<ClientRecord>, next: int)
    reads PlayersOf(recs)
  {
    0 <= next && IdsIncreasing(recs) && PlayersApart(recs) &&
    forall k | 0 <= k < |recs| ::
      0 <= recs[k].clientId < next && recs[k].player.kind == PlayerKind && recs[k].player.InBounds()
  }

  /** The comprehension of the prune step: the records not marked disconnected, in order. */
  method KeepConnected(recs: seq<ClientRecord>) returns (kept: seq<ClientRecord>)
    ensures kept == Connected(recs)
  {
    kept := [];
    for i := 0 to |recs|
      invariant kept == Connected(recs[..i])
    {
      assert recs[..i + 1][..i] == recs[..i];
      if !recs[i].disconnected {
        kept := kept + [recs[i]];
      }
    }
    assert recs[..|recs|] == recs;
  }

  /**
   * The broadcast loop: each record in turn is sent the snapshot built
   * for it, and a record whose send fails is marked disconnected.
   */
  method SendAll(recs: seq<ClientRecord>, enemies: seq<Entity>, bullets: seq<Bullet>, failures: seq<bool>)
    returns (sent: seq<Message>)
    requires IdsIncreasing(recs) && |failures| >= |recs|
    modifies recs
    ensures |sent| == |recs|
    ensures forall k | 0 <= k < |recs| :: sent[k] == SnapshotFor(recs, k, enemies, bullets)
    ensures forall k | 0 <= k < |recs| ::
      recs[k].disconnected == (old(recs[k].disconnected) || failures[k]) &&
      recs[k].latestAction == old(recs[k].latestAction)
  {
    sent := [];
    for i := 0 to |recs|
      invariant |sent| == i && forall k | 0 <= k < i :: sent[k] == SnapshotFor(recs, k, enemies, bullets)
      invariant forall k | 0 <= k < |recs| ::
        recs[k].disconnected == (old(recs[k].disconnected) || (k < i && failures[k])) &&
        recs[k].latestAction == old(recs[k].latestAction)
    {
      sent := sent + [SnapshotFor(recs, i, enemies, bullets)];
      if failures[i] {
        assert forall p | p in PlayersOf(recs) :: p as object != recs[i];
        recs[i].disconnected := true;
      }
    }
  }

  /** Pruning keeps the registry well formed. */
  lemma ConnectedRegistryOk(recs: seq<ClientRecord>, next: int)
    requires RegistryOk(recs, next)
    ensures RegistryOk(Connected(recs), next)
  {
    ConnectedKeepsLive(recs);
    ConnectedKeepsOrder(recs);
    var kept := Connected(recs);
    forall k | 0 <= k < |kept|
      ensures 0 <= kept[k].clientId < next && kept[k].player.kind == PlayerKind && kept[k].player.InBounds()
    {
      assert kept[k] in recs;
      var j :| 0 <= j < |recs| && recs[j] == kept[k];
    }
  }

  /** A record with a fresh id and a new player inside the world keeps the registry well formed. */
  lemma AdmittedRegistryOk(recs: seq<ClientRecord>, next: int, rec: ClientRecord)
    requires RegistryOk(recs, next) && rec.clientId == next
    requires rec.player.kind == PlayerKind && rec.player.InBounds()
    requires forall k | 0 <= k < |recs| :: recs[k].player != rec.player
    ensures RegistryOk(recs + [rec], next + 1)
  {
    var all := recs + [rec];
    forall k | 0 <= k < |all|
      ensures 0 <= all[k].clientId < next + 1 && all[k].player.kind == PlayerKind && all[k].player.InBounds()
    {
      if k < |recs| {
        assert all[k] == recs[k];
      }
    }
    assert IdsIncreasing(all) && PlayersApart(all) by {
      assert forall k | 0 <= k < |recs| :: all[k] == recs[k];
    }
  }

  /** Every enemy is inside the world with health left, and none is listed twice. */
  ghost predicate EnemiesOk(enemies: seq<Entity>)
    reads enemies
  {
    (forall e | e in enemies :: e.kind == EnemyKind && e.InBounds() && e.health > 0) && Distinct(enemies)
  }

  /** The players of a part of a registry are players of the registry. */
  lemma PlayersOfSubset(a: seq<ClientRecord>, b: seq<ClientRecord>)
    requires forall r | r in a :: r in b
    ensures forall p | p in PlayersOf(a) :: p in PlayersOf(b)
  {
    forall p | p in PlayersOf(a)
      ensures p in PlayersOf(b)
    {
      var k :| 0 <= k < |a| && PlayersOf(a)[k] == p;
      assert a[k] in b;
      var j :| 0 <= j < |b| && b[j] == a[k];
      assert PlayersOf(b)[j] == p;
    }
  }

  // ---------------------------------------------------------------------
  // The server's world
  // ---------------------------------------------------------------------

  /**
   * The state run_server keeps: the client registry and the next id to
   * hand out, the inbound queue, the shared enemies and bullets, the spawn
   * timer and the clock; `secret` is the configured join token, if any.
   */
  class World {
    const secret: Option<string>
    var clients: seq<ClientRecord>
    var nextClientId: int
    var queue: seq<Entry>
    var enemies: seq<Entity>
    var bullets: seq<Bullet>
    var lastEnemySpawnTime: real
    var nextSpawnInterval: int
    var currentTime: real

    /**
     * Ids strictly increase in registry order and are below the next id;
     * every record has its own player, inside the world; every enemy is
     * inside the world with health left; no object is twice in a list;
     * the spawn interval is one randint can draw.
     */
    ghost predicate Valid()
      reads this, PlayersOf(clients), enemies
    {
      RegistryOk(clients, nextClientId) && EnemiesOk(enemies) && Distinct(bullets) &&
      EnemySpawnMin <= nextSpawnInterval <= EnemySpawnMax
    }

    /**
     * The set-up of run_server: no clients, ids from 0, an empty queue,
     * three enemies at the drawn positions, no bullets, the clock at 0.
     */
    constructor (secret: Option<string>, spawns: seq<(SpawnCoord, SpawnCoord)>, interval: SpawnInterval)
      requires |spawns| == 3
      ensures Valid() && this.secret == secret
      ensures clients == [] && nextClientId == 0 && queue == [] && bullets == []
      ensures |enemies| == 3 && forall i | 0 <= i < 3 ::
        fresh(enemies[i]) && enemies[i].x == spawns[i].0 && enemies[i].y == spawns[i].1
      ensures currentTime == 0.0 && lastEnemySpawnTime == 0.0 && nextSpawnInterval == interval
    {
      var es: seq<Entity> := [];
      for i := 0 to 3
        invariant |es| == i && Distinct(es)
        invariant forall j | 0 <= j < i ::
          fresh(es[j]) && es[j].x == spawns[j].0 && es[j].y == spawns[j].1 &&
          es[j].kind == EnemyKind && es[j].InBounds() && es[j].health > 0
      {
        var e := new Entity.Enemy(spawns[i].0, spawns[i].1);
        DistinctAppend(es, e);
        es := es + [e];
      }
      this.secret := secret;
      clients := [];
      nextClientId := 0;
      queue := [];
      enemies := es;
      bullets := [];
      lastEnemySpawnTime := 0.0;
      nextSpawnInterval := interval;
      currentTime := 0.0;
    }

    /**
     * One connection of accept_loop: it takes the next id whatever happens
     * to it; an admitted connection gets a fresh record, with a player at
     * the drawn position, at the end of the registry and a welcome; a
     * refused one gets the reason; one whose timeout cannot be set or
   * cleared gets nothing.
     */
    method Accept(sock: Socket, arrival: Arrival, px: SpawnCoord, py: SpawnCoord) returns (reply: Option<Message>)
      requires Valid()
      modifies this`nextClientId, this`clients
      ensures Valid() && nextClientId == old(nextClientId) + 1
      ensures Admission(arrival, secret) == Admit ==>
        |clients| == |old(clients)| + 1 && clients[..|old(clients)|] == old(clients) &&
        fresh(clients[|old(clients)|]) && fresh(clients[|old(clients)|].player) &&
        clients[|old(clients)|].clientId == old(nextClientId) && clients[|old(clients)|].sock == sock &&
        clients[|old(clients)|].player.x == px && clients[|old(clients)|].player.y == py &&
        clients[|old(clients)|].latestAction == 0 && !clients[|old(clients)|].disconnected &&
        reply == Some(Welcome(old(nextClientId), px, py, WorldWidth, WorldHeight, EntitySize))
      ensures Admission(arrival, secret).Refuse? ==>
        clients == old(clients) && reply == Some(Reject(Admission(arrival, secret).reason))
      ensures Admission(arrival, secret) == Drop ==> clients == old(clients) && reply == None
    {
      var cid := nextClientId;
      nextClientId := nextClientId + 1;
      var verdict := Admission(arrival, secret);
      if verdict == Drop {
        reply := None;
      } else if verdict.Refuse? {
        reply := Some(Reject(verdict.reason));
      } else {
        var player := new Entity.Player(px, py);
        var rec := new ClientRecord(cid, sock, player);
        AdmittedRegistryOk(clients, cid, rec);
        clients := clients + [rec];
        reply := Some(Welcome(cid, px, py, WorldWidth, WorldHeight, EntitySize));
      }
    }

    /**
     * _client_recv_loop over a socket holding `sock.inbound`: every message
     * read joins the queue under the client's id, then the final `None`.
     */
    method ReaderLoop(cid: int, sock: Socket, parse: seq<Byte> -> Option<Message>)
      modifies this`queue, sock`inbound
      ensures queue == old(queue) + ReaderEntries(cid, old(sock.inbound), parse)
    {
      queue := ReadInto(cid, sock, parse, queue);
    }

    /**
     * The drain of a tick: the queue is taken and cleared, and every record
     * ends as its entries make it.
     */
    method DrainQueue()
      requires Valid()
      modifies this`queue, clients
      ensures Valid() && queue == []
      ensures forall k | 0 <= k < |clients| ::
        SlotOf(clients[k]) == Drained(clients[k].clientId, old(SlotOf(clients[k])), old(queue))
    {
      var batch := queue;
      queue := [];
      var recs := clients;
      ghost var s0 := seq(|recs|, k requires 0 <= k < |recs| reads recs => SlotOf(recs[k]));
      DrainAll(recs, s0, batch);
      assert batch[..|batch|] == batch;
    }

    /** The pruning of a tick: the disconnected records leave the registry, the others stay in order. */
    method Prune()
      requires Valid()
      modifies this`clients
      ensures Valid() && clients == Connected(old(clients)) && |clients| <= |old(clients)|
      ensures forall r | r in clients :: r in old(clients) && !r.disconnected
      ensures forall r | r in old(clients) && !r.disconnected :: r in clients
    {
      var kept := KeepConnected(clients);
      ConnectedKeepsLive(clients);
      ConnectedRegistryOk(clients, nextClientId);
      clients := kept;
    }

    /**
     * The spawn check of a tick: once the drawn interval has elapsed on the
     * clock, an enemy joins the end of the list at the drawn position, the
     * timer restarts and a new interval is drawn.
     */
    method SpawnEnemy(spawnX: SpawnCoord, spawnY: SpawnCoord, interval: SpawnInterval)
      requires Valid()
      modifies this`enemies, this`lastEnemySpawnTime, this`nextSpawnInterval
      ensures Valid()
      ensures Due(old(lastEnemySpawnTime), old(nextSpawnInterval), currentTime) ==>
        |enemies| == |old(enemies)| + 1 && enemies[..|old(enemies)|] == old(enemies) &&
        fresh(enemies[|old(enemies)|]) && PoseOf(enemies[|old(enemies)|]) == SpawnPose(spawnX, spawnY) &&
        lastEnemySpawnTime == currentTime && nextSpawnInterval == interval
      ensures !Due(old(lastEnemySpawnTime), old(nextSpawnInterval), currentTime) ==>
        enemies == old(enemies) && lastEnemySpawnTime == old(lastEnemySpawnTime) &&
        nextSpawnInterval == old(nextSpawnInterval)
    {
      if currentTime - lastEnemySpawnTime >= nextSpawnInterval as real {
        var enemy := new Entity.Enemy(spawnX, spawnY);
        DistinctAppend(enemies, enemy);
        enemies := enemies + [enemy];
        lastEnemySpawnTime := currentTime;
        nextSpawnInterval := interval;
      }
    }

    /** The registry half of a tick's start: drain the queue, then prune the registry. */
    method Settle()
      requires Valid()
      modifies this`queue, this`clients, clients
      ensures Valid() && queue == [] && |clients| <= |old(clients)|
      ensures forall r | r in old(clients) :: SlotOf(r) == Drained(r.clientId, old(SlotOf(r)), old(queue))
      ensures forall r | r in clients :: r in old(clients) && !r.disconnected
      ensures forall r | r in old(clients) && !r.disconnected :: r in clients
    {
      DrainQueue();
      Prune();
    }

    /**
     * The first part of a tick: drain the queue, prune the registry,
     * advance the clock by 1000/60 ms and run the spawn check. None of it
     * depends on whether any client is connected.
     */
    method Intake(spawnX: SpawnCoord, spawnY: SpawnCoord, interval: SpawnInterval) returns (ghost drained: seq<Slot>)
      requires Valid()
      modifies this`queue, this`clients, clients, this`currentTime,
        this`enemies, this`lastEnemySpawnTime, this`nextSpawnInterval
      ensures Valid() && queue == [] && |clients| <= |old(clients)|
      ensures |drained| == |old(clients)| && forall k | 0 <= k < |old(clients)| ::
        drained[k] == Drained(old(clients)[k].clientId, old(SlotOf(clients[k])), old(queue))
      ensures forall k | 0 <= k < |old(clients)| :: SlotOf(old(clients)[k]) == drained[k]
      ensures forall r | r in old(clients) :: SlotOf(r) == Drained(r.clientId, old(SlotOf(r)), old(queue))
      ensures forall p | p in PlayersOf(clients) :: p in old(PlayersOf(clients))
      ensures forall r | r in clients :: r in old(clients) && !r.disconnected
      ensures forall r | r in old(clients) && !r.disconnected :: r in clients
      ensures currentTime == old(currentTime) + TickMillis
      ensures Due(old(lastEnemySpawnTime), old(nextSpawnInterval), currentTime) ==>
        |enemies| == |old(enemies)| + 1 && enemies[..|old(enemies)|] == old(enemies) &&
        fresh(enemies[|old(enemies)|]) && PoseOf(enemies[|old(enemies)|]) == SpawnPose(spawnX, spawnY) &&
        lastEnemySpawnTime == currentTime && nextSpawnInterval == interval
      ensures !Due(old(lastEnemySpawnTime), old(nextSpawnInterval), currentTime) ==>
        enemies == old(enemies) && lastEnemySpawnTime == old(lastEnemySpawnTime) &&
        nextSpawnInterval == old(nextSpawnInterval)
      ensures forall j | 0 <= j < |old(enemies)| :: PoseOf(old(enemies)[j]) == old(PoseOf(enemies[j]))
    {
      ghost var before, batch := clients, queue;
      ghost var starts := seq(|before|, k requires 0 <= k < |before| reads before => SlotOf(before[k]));
      Settle();
      drained := seq(|before|, k requires 0 <= k < |before| => Drained(before[k].clientId, starts[k], batch));
      PlayersOfSubset(clients, before);
      currentTime := currentTime + TickMillis;
      SpawnEnemy(spawnX, spawnY, interval);
    }

    /**
     * The player pass of a tick: every player moves as its record's latest
     * flat action says, the bullets that hit it leave the list, and its
     * shots join the list; `pass` records every turn.
     */
    method MovePlayers(aims: seq<AimDraw>, trig: Trig, ghost from: Spots) returns (ghost pass: Pass)
      requires Valid() && |aims| >= |clients| && Stood(bullets, from)
      modifies this`bullets, PlayersOf(clients)
      ensures Valid()
      ensures PlayersTurned(PlayersOf(clients), old(ActionsOf(clients)), pass, currentTime, aims, trig)
      ensures forall j | 0 <= j < |clients| :: PlayerHitAt(PlayersOf(clients), pass, j)
      ensures forall j | 0 <= j < |clients| ::
        pass.poses[j] == old(PoseOf(clients[j].player)) && pass.ends[j] == PoseOf(clients[j].player)
      ensures pass.lists[0] == old(bullets) && bullets == pass.lists[|clients|]
      ensures forall j | 0 <= j < |enemies| :: PoseOf(enemies[j]) == old(PoseOf(enemies[j]))
      ensures forall b | b in bullets :: b in old(bullets) || fresh(b)
      ensures Stood(old(bullets), from)
    {
      assert forall j | 0 <= j < |enemies| :: enemies[j] !in PlayersOf(clients) by {
        assert forall p | p in PlayersOf(clients) :: p.kind == PlayerKind;
      }
      ghost var flats := ActionsOf(clients);
      var after;
      after, pass := PlayersAct(clients, currentTime, aims, trig, bullets);
      SettlePlayers(after, pass, flats, aims, trig);
    }

    /**
     * Installs the list the player pass produced; what holds of the pass's
     * players and bullets holds as before.
     */
    method SettlePlayers(after: seq<Bullet>, ghost pass: Pass, ghost flats: seq<int>, aims: seq<AimDraw>, trig: Trig)
      requires RegistryOk(clients, nextClientId) && EnemiesOk(enemies) && EnemySpawnMin <= nextSpawnInterval <= EnemySpawnMax
      requires Distinct(after)
      requires PlayersTurned(PlayersOf(clients), flats, pass, currentTime, aims, trig)
      requires forall j | 0 <= j < |clients| :: PlayerHitAt(PlayersOf(clients), pass, j)
      requires forall j | 0 <= j < |clients| :: pass.ends[j] == PoseOf(clients[j].player)
      modifies this`bullets
      ensures Valid() && bullets == after
      ensures PlayersTurned(PlayersOf(clients), flats, pass, currentTime, aims, trig)
      ensures forall j | 0 <= j < |clients| :: PlayerHitAt(PlayersOf(clients), pass, j)
      ensures forall j | 0 <= j < |clients| :: pass.ends[j] == PoseOf(clients[j].player)
    {
      bullets := after;
    }

    /**
     * The enemy pass of a tick: each enemy targets the nearest living
     * player, or only moves when there is none; the dead leave the list.
     * `seats` are the players' poses, which the pass does not change.
     */
    method MoveEnemies(picks: seq<ChoiceIndex>, trig: Trig, ghost seats: seq<Pose>, ghost start: seq<Bullet>,
                       ghost from: Spots)
      returns (ghost pass: Pass, ghost targets: seq<Option<int>>)
      requires Valid() && |picks| >= |enemies| && SeatedAt(PlayersOf(clients), seats) && Stood(start, from)
      modifies this`enemies, this`bullets, enemies
      ensures Valid()
      ensures EnemiesHunted(old(enemies), seats, pass, targets, currentTime, picks, trig)
      ensures forall j | 0 <= j < |old(enemies)| :: HuntHitAt(old(enemies), pass, targets, j)
      ensures forall j | 0 <= j < |old(enemies)| ::
        pass.poses[j] == old(PoseOf(enemies[j])) && pass.ends[j] == PoseOf(old(enemies)[j])
      ensures pass.lists[0] == old(bullets) && bullets == pass.lists[|old(enemies)|]
      ensures enemies == Alive(old(enemies))
      ensures forall b | b in bullets :: b in old(bullets) || fresh(b)
      ensures forall j | 0 <= j < |clients| :: PoseOf(clients[j].player) == old(PoseOf(clients[j].player))
      ensures Stood(start, from)
    {
      var players := PlayersOf(clients);
      assert forall j | 0 <= j < |players| :: players[j] !in enemies by {
        assert forall e | e in enemies :: e.kind == EnemyKind;
      }
      ghost var es := enemies;
      var alive, after;
      alive, after, pass, targets := EnemiesHunt(players, enemies, bullets, currentTime, picks, trig, seats, start, from);
      SettleHunt(es, alive, after, pass, targets, start, from);
      LivingAtIsAlive(es, pass.ends);
    }

    /**
     * Installs the lists the enemy pass produced; what holds of the pass's
     * entities, bullets and players holds as before.
     */
    method SettleHunt(ghost es: seq<Entity>, alive: seq<Entity>, after: seq<Bullet>,
                      ghost pass: Pass, ghost targets: seq<Option<int>>, ghost start: seq<Bullet>, ghost from: Spots)
      requires RegistryOk(clients, nextClientId) && EnemySpawnMin <= nextSpawnInterval <= EnemySpawnMax
      requires forall e | e in alive :: e in es && e.health > 0 && e.InBounds()
      requires forall e | e in es :: e.kind == EnemyKind
      requires Distinct(alive) && Distinct(after) && |pass.ends| == |es|
      requires forall j | 0 <= j < |es| :: HuntHitAt(es, pass, targets, j)
      requires forall j | 0 <= j < |es| :: pass.ends[j] == PoseOf(es[j])
      requires Stood(start, from)
      modifies this`enemies, this`bullets
      ensures Valid() && enemies == alive && bullets == after
      ensures forall j | 0 <= j < |es| :: HuntHitAt(es, pass, targets, j)
      ensures forall j | 0 <= j < |es| :: pass.ends[j] == PoseOf(es[j])
      ensures Stood(start, from)
    {
      enemies := alive;
      bullets := after;
    }

    /** The bullet pass of a tick: the bullets fly on and those off screen leave the list. */
    method MoveBullets(ghost roster: seq<Entity>, ghost at: Spots)
      requires Valid() && Stood(bullets, at)
      modifies this`bullets, bullets
      ensures Valid()
      ensures Flew(old(bullets)) && FlewFrom(old(bullets), at)
      ensures bullets == OnScreen(old(bullets))
      ensures forall j | 0 <= j < |clients| :: PoseOf(clients[j].player) == old(PoseOf(clients[j].player))
      ensures forall j | 0 <= j < |roster| :: PoseOf(roster[j]) == old(PoseOf(roster[j]))
    {
      var kept, off := AdvanceBullets(bullets, at);
      assert unchanged(PlayersOf(clients)) && unchanged(enemies);
      KeptAreOnScreen(bullets, off);
      bullets := kept;
    }

    /**
     * The broadcast of a tick: each record, in registry order, is sent its
     * snapshot, and a record whose send raises (`failures[k]`) is marked
     * disconnected; the snapshots already built are not affected by it.
     */
    method Broadcast(failures: seq<bool>) returns (sent: seq<Message>)
      requires Valid() && |failures| >= |clients|
      modifies clients
      ensures Valid() && unchanged(PlayersOf(clients)) && unchanged(bullets)
      ensures |sent| == |clients|
      ensures forall k | 0 <= k < |clients| :: sent[k] == SnapshotFor(clients, k, enemies, bullets)
      ensures forall k | 0 <= k < |clients| ::
        clients[k].disconnected == (old(clients[k].disconnected) || failures[k]) &&
        clients[k].latestAction == old(clients[k].latestAction)
    {
      sent := SendAll(clients, enemies, bullets, failures);
    }

    /**
     * The players' and the enemies' passes of a tick: `ppass` records the
     * players' turns, and `epass` and `targets` the enemies' turns, which
     * hunt the players where the player pass left them and take the list
     * on from there. No bullet moves: each turn met the bullets where they
     * stand now, and the old ones still stand where `from` records them.
     */
    method Clash(aims: seq<AimDraw>, picks: seq<ChoiceIndex>, trig: Trig, ghost from: Spots)
      returns (ghost ppass: Pass, ghost epass: Pass, ghost targets: seq<Option<int>>)
      requires Valid() && |aims| >= |clients| && |picks| >= |enemies| && Stood(bullets, from)
      modifies this`bullets, this`enemies, PlayersOf(clients), enemies
      ensures Valid()
      ensures PlayersTurned(PlayersOf(clients), old(ActionsOf(clients)), ppass, currentTime, aims, trig)
      ensures forall j | 0 <= j < |clients| ::
        ppass.poses[j] == old(PoseOf(clients[j].player)) && ppass.ends[j] == PoseOf(clients[j].player)
      ensures forall j | 0 <= j < |clients| :: PlayerHitAt(PlayersOf(clients), ppass, j)
      ensures EnemiesHunted(old(enemies), ppass.ends, epass, targets, currentTime, picks, trig)
      ensures forall j | 0 <= j < |old(enemies)| :: HuntHitAt(old(enemies), epass, targets, j)
      ensures ppass.lists[0] == old(bullets) && epass.lists[0] == ppass.lists[|clients|]
      ensures forall j | 0 <= j < |old(enemies)| ::
        epass.poses[j] == old(PoseOf(enemies[j])) && epass.ends[j] == PoseOf(old(enemies)[j])
      ensures enemies == LivingAt(old(enemies), epass.ends) && bullets == epass.lists[|old(enemies)|]
      ensures forall i | 0 <= i < |bullets| :: bullets[i] in old(bullets) || fresh(bullets[i])
      ensures Stood(old(bullets), from)
    {
      ghost var es := enemies;
      ppass := MovePlayers(aims, trig, from);
      epass, targets := MoveEnemies(picks, trig, ppass.ends, old(bullets), from);
      LivingAtIsAlive(es, epass.ends);
    }

    /**
     * The players' and the enemies' passes of a tick, as `Clash` records
     * them, with the snapshot `at` of where every bullet they met stood:
     * the old bullets where they stood before the tick, and each turn's
     * collision holds against it.
     */
    method Fight(aims: seq<AimDraw>, picks: seq<ChoiceIndex>, trig: Trig)
      returns (ghost ppass: Pass, ghost epass: Pass, ghost targets: seq<Option<int>>, ghost at: Spots)
      requires Valid() && |aims| >= |clients| && |picks| >= |enemies|
      modifies this`bullets, this`enemies, PlayersOf(clients), enemies
      ensures Valid()
      ensures PlayersTurned(PlayersOf(clients), old(ActionsOf(clients)), ppass, currentTime, aims, trig)
      ensures forall j | 0 <= j < |clients| ::
        ppass.poses[j] == old(PoseOf(clients[j].player)) && ppass.ends[j] == PoseOf(clients[j].player)
      ensures EnemiesHunted(old(enemies), ppass.ends, epass, targets, currentTime, picks, trig)
      ensures ppass.lists[0] == old(bullets) && epass.lists[0] == ppass.lists[|clients|]
      ensures forall j | 0 <= j < |old(enemies)| ::
        epass.poses[j] == old(PoseOf(enemies[j])) && epass.ends[j] == PoseOf(old(enemies)[j])
      ensures enemies == LivingAt(old(enemies), epass.ends) && bullets == epass.lists[|old(enemies)|]
      ensures forall i | 0 <= i < |bullets| :: bullets[i] in old(bullets) || fresh(bullets[i])
      ensures StoodBefore(old(bullets), at)
      ensures forall j | 0 <= j < |clients| :: PlayerTurnHitIn(PlayersOf(clients), ppass, j, at)
      ensures forall j | 0 <= j < |old(enemies)| :: HuntHitIn(old(enemies), epass, targets, j, at)
      ensures Stood(bullets, at)
    {
      ghost var es, from := enemies, SpotsOf(set b | b in bullets);
      ppass, epass, targets := Clash(aims, picks, trig, from);
      at := SnapshotTick(PlayersOf(clients), ppass, es, epass, targets, old(bullets), from);
    }

    /**
     * The players', the enemies' and the bullets' passes of a tick; the
     * list the enemy pass leaves flies on and keeps what is on screen.
     */
    method Move(aims: seq<AimDraw>, picks: seq<ChoiceIndex>, trig: Trig)
      returns (ghost ppass: Pass, ghost epass: Pass, ghost targets: seq<Option<int>>, ghost at: Spots)
      requires Valid() && |aims| >= |clients| && |picks| >= |enemies|
      modifies this`bullets, this`enemies, PlayersOf(clients), enemies, bullets
      ensures Valid()
      ensures PlayersTurned(PlayersOf(clients), old(ActionsOf(clients)), ppass, currentTime, aims, trig)
      ensures forall j | 0 <= j < |clients| ::
        ppass.poses[j] == old(PoseOf(clients[j].player)) && ppass.ends[j] == PoseOf(clients[j].player)
      ensures EnemiesHunted(old(enemies), ppass.ends, epass, targets, currentTime, picks, trig)
      ensures ppass.lists[0] == old(bullets) && epass.lists[0] == ppass.lists[|clients|]
      ensures forall j | 0 <= j < |old(enemies)| ::
        epass.poses[j] == old(PoseOf(enemies[j])) && epass.ends[j] == PoseOf(old(enemies)[j])
      ensures enemies == LivingAt(old(enemies), epass.ends) && bullets == OnScreen(epass.lists[|old(enemies)|])
      ensures StoodBefore(old(bullets), at)
      ensures forall j | 0 <= j < |clients| :: PlayerTurnHitIn(PlayersOf(clients), ppass, j, at)
      ensures forall j | 0 <= j < |old(enemies)| :: HuntHitIn(old(enemies), epass, targets, j, at)
      ensures FlewFrom(epass.lists[|old(enemies)|], at)
    {
      ghost var roster := enemies;
      ppass, epass, targets, at := Fight(aims, picks, trig);
      MoveBullets(roster, at);
    }

    /**
     * The part of a tick that runs only with clients connected: the
     * players, then the enemies, then the bullets move, and every record
     * is sent its snapshot of the result.
     */
    method Play(aims: seq<AimDraw>, picks: seq<ChoiceIndex>, trig: Trig, failures: seq<bool>)
      returns (sent: seq<Message>, ghost ppass: Pass, ghost epass: Pass, ghost targets: seq<Option<int>>,
               ghost at: Spots)
      requires Valid() && |aims| >= |clients| && |picks| >= |enemies| && |failures| >= |clients|
      modifies this`bullets, this`enemies, PlayersOf(clients), enemies, bullets, clients
      ensures Valid()
      ensures PlayersTurned(PlayersOf(clients), old(ActionsOf(clients)), ppass, currentTime, aims, trig)
      ensures forall j | 0 <= j < |clients| ::
        ppass.poses[j] == old(PoseOf(clients[j].player)) && ppass.ends[j] == PoseOf(clients[j].player)
      ensures EnemiesHunted(old(enemies), ppass.ends, epass, targets, currentTime, picks, trig)
      ensures ppass.lists[0] == old(bullets) && epass.lists[0] == ppass.lists[|clients|]
      ensures forall j | 0 <= j < |old(enemies)| ::
        epass.poses[j] == old(PoseOf(enemies[j])) && epass.ends[j] == PoseOf(old(enemies)[j])
      ensures enemies == LivingAt(old(enemies), epass.ends) && bullets == OnScreen(epass.lists[|old(enemies)|])
      ensures |sent| == |clients| && forall k | 0 <= k < |clients| :: sent[k] == SnapshotFor(clients, k, enemies, bullets)
      ensures forall k | 0 <= k < |clients| ::
        clients[k].disconnected == (old(clients[k].disconnected) || failures[k]) &&
        clients[k].latestAction == old(clients[k].latestAction)
      ensures StoodBefore(old(bullets), at)
      ensures forall j | 0 <= j < |clients| :: PlayerTurnHitIn(PlayersOf(clients), ppass, j, at)
      ensures forall j | 0 <= j < |old(enemies)| :: HuntHitIn(old(enemies), epass, targets, j, at)
      ensures FlewFrom(epass.lists[|old(enemies)|], at)
    {
      ppass, epass, targets, at := Move(aims, picks, trig);
      sent := Broadcast(failures);
    }

    /**
     * The part of a tick after the spawn check: with nobody connected
     * nothing moves and nothing is sent; otherwise the world moves and
     * every record is sent its snapshot.
     */
    method Run(aims: seq<AimDraw>, picks: seq<ChoiceIndex>, trig: Trig, failures: seq<bool>)
      returns (sent: seq<Message>, ghost ppass: Pass, ghost epass: Pass, ghost targets: seq<Option<int>>,
               ghost at: Spots)
      requires Valid() && |aims| >= |clients| && |picks| >= |enemies| && |failures| >= |clients|
      modifies this`bullets, this`enemies, PlayersOf(clients), enemies, bullets, clients
      ensures Valid() && clients == old(clients) && currentTime == old(currentTime)
      ensures forall r | r in clients :: r.latestAction == old(r.latestAction)
      ensures lastEnemySpawnTime == old(lastEnemySpawnTime) && nextSpawnInterval == old(nextSpawnInterval)
      ensures clients == [] ==> sent == [] && enemies == old(enemies) && bullets == old(bullets)
      ensures clients != [] ==>
        PlayersTurned(PlayersOf(clients), old(ActionsOf(clients)), ppass, currentTime, aims, trig) &&
        EnemiesHunted(old(enemies), ppass.ends, epass, targets, currentTime, picks, trig) &&
        ppass.lists[0] == old(bullets) && epass.lists[0] == ppass.lists[|clients|] &&
        enemies == LivingAt(old(enemies), epass.ends) && bullets == OnScreen(epass.lists[|old(enemies)|])
      ensures clients != [] ==> forall j | 0 <= j < |clients| ::
        ppass.poses[j] == old(PoseOf(clients[j].player)) && ppass.ends[j] == PoseOf(clients[j].player)
      ensures clients != [] ==> forall j | 0 <= j < |old(enemies)| ::
        epass.poses[j] == old(PoseOf(enemies[j])) && epass.ends[j] == PoseOf(old(enemies)[j])
      ensures clients != [] ==> StoodBefore(old(bullets), at) && FlewFrom(epass.lists[|old(enemies)|], at)
      ensures clients != [] ==> forall j | 0 <= j < |clients| :: PlayerTurnHitIn(PlayersOf(clients), ppass, j, at)
      ensures clients != [] ==> forall j | 0 <= j < |old(enemies)| :: HuntHitIn(old(enemies), epass, targets, j, at)
      ensures clients == [] ==> forall j | 0 <= j < |enemies| :: PoseOf(enemies[j]) == old(PoseOf(enemies[j]))
      ensures |sent| == |clients| && forall k | 0 <= k < |clients| :: sent[k] == SnapshotFor(clients, k, enemies, bullets)
      ensures forall k | 0 <= k < |clients| ::
        clients[k].disconnected == (old(clients[k].disconnected) || failures[k]) &&
        clients[k].latestAction == old(clients[k].latestAction)
    {
      if |clients| == 0 {
        ppass, epass, targets := Pass([], [], [bullets], [], []), Pass([], [], [bullets], [], []), [];
        return [], ppass, epass, targets, map[];
      }
      sent, ppass, epass, targets, at := Play(aims, picks, trig, failures);
    }

    /**
     * One tick of run_server's loop. The queue is drained into the
     * registry and the disconnected records are pruned; the clock advances
     * and the spawn check runs whether or not anyone is connected, leaving
     * the enemies `roster` and the flat actions `flats`; with nobody
     * connected the tick ends there and sends nothing; otherwise the world
     * moves and every record is sent its snapshot, a record whose send
     * fails being marked disconnected.
     */
    method Tick(spawnX: SpawnCoord, spawnY: SpawnCoord, interval: SpawnInterval,
                aims: seq<AimDraw>, picks: seq<ChoiceIndex>, trig: Trig, failures: seq<bool>)
      returns (sent: seq<Message>, ghost drained: seq<Slot>, ghost roster: seq<Entity>, ghost flats: seq<int>,
               ghost ppass: Pass, ghost epass: Pass, ghost targets: seq<Option<int>>, ghost at: Spots)
      requires Valid()
      requires |aims| >= |clients| && |failures| >= |clients| && |picks| > |enemies|
      modifies this, clients, PlayersOf(clients), enemies, bullets
      ensures Valid() && queue == []
      ensures |clients| <= |old(clients)| && forall r | r in clients :: r in old(clients) && old(allocated(r.player))
      ensures currentTime == old(currentTime) + TickMillis
      ensures |drained| == |old(clients)| && forall k | 0 <= k < |old(clients)| ::
        drained[k] == Drained(old(clients)[k].clientId, old(SlotOf(clients[k])), old(queue))
      ensures forall k | 0 <= k < |old(clients)| ::
        old(clients)[k].latestAction == drained[k].latest && (old(clients)[k] in clients <==> !drained[k].disconnected)
      ensures forall k | 0 <= k < |clients| :: clients[k].disconnected == failures[k]
      ensures |flats| == |clients| && forall k | 0 <= k < |clients| :: flats[k] == clients[k].latestAction
      ensures Due(old(lastEnemySpawnTime), old(nextSpawnInterval), currentTime) ==>
        |roster| == |old(enemies)| + 1 && roster[..|old(enemies)|] == old(enemies) && fresh(roster[|old(enemies)|]) &&
        lastEnemySpawnTime == currentTime && nextSpawnInterval == interval
      ensures !Due(old(lastEnemySpawnTime), old(nextSpawnInterval), currentTime) ==>
        roster == old(enemies) && lastEnemySpawnTime == old(lastEnemySpawnTime) &&
        nextSpawnInterval == old(nextSpawnInterval)
      ensures clients == [] ==> sent == [] && enemies == roster && bullets == old(bullets)
      ensures clients != [] ==>
        PlayersTurned(PlayersOf(clients), flats, ppass, currentTime, aims, trig) &&
        EnemiesHunted(roster, ppass.ends, epass, targets, currentTime, picks, trig) &&
        ppass.lists[0] == old(bullets) && epass.lists[0] == ppass.lists[|clients|] &&
        enemies == LivingAt(roster, epass.ends) && bullets == OnScreen(epass.lists[|roster|])
      ensures clients != [] ==> forall j | 0 <= j < |clients| ::
        var p := clients[j].player; ppass.poses[j] == old(PoseOf(p)) && ppass.ends[j] == PoseOf(p)
      ensures clients != [] ==> forall j | 0 <= j < |roster| :: epass.ends[j] == PoseOf(roster[j])
      ensures clients != [] ==> forall j | 0 <= j < |old(enemies)| :: epass.poses[j] == old(PoseOf(enemies[j]))
      ensures clients != [] && Due(old(lastEnemySpawnTime), old(nextSpawnInterval), currentTime) ==>
        epass.poses[|old(enemies)|] == SpawnPose(spawnX, spawnY)
      ensures clients == [] ==> forall j | 0 <= j < |old(enemies)| :: PoseOf(roster[j]) == old(PoseOf(enemies[j]))
      ensures clients == [] && Due(old(lastEnemySpawnTime), old(nextSpawnInterval), currentTime) ==>
        PoseOf(roster[|old(enemies)|]) == SpawnPose(spawnX, spawnY)
      ensures clients != [] ==> StoodBefore(old(bullets), at) && FlewFrom(epass.lists[|roster|], at)
      ensures clients != [] ==> forall j | 0 <= j < |clients| :: PlayerTurnHitIn(PlayersOf(clients), ppass, j, at)
      ensures clients != [] ==> forall j | 0 <= j < |roster| :: HuntHitIn(roster, epass, targets, j, at)
      ensures |sent| == |clients| && forall k | 0 <= k < |clients| :: sent[k] == SnapshotFor(clients, k, enemies, bullets)
    {
      drained := Intake(spawnX, spawnY, interval);
      roster := enemies;
      flats := ActionsOf(clients);
      sent, ppass, epass, targets, at := Run(aims, picks, trig, failures);
    }
  }
}

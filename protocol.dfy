/**
 * The wire protocol of the multiplayer game: the flat action codec
 * (5 moves x 4 aim angles = 20 actions) and the framing layer, a 4-byte
 * big-endian length prefix followed by the payload bytes.
 *
 * JSON is not modelled: a payload is opaque bytes, and the JSON library is
 * an oracle `parse` (bytes to message, `None` on a decode error) or
 * `encode` (message to bytes) that callers pass in.
 */
module Protocol {
  import opened Wrappers

  // ---------------------------------------------------------------------
  // Flat action codec
  // ---------------------------------------------------------------------

  const NumMoves: int := 5
  const NumAimAngles: int := 4
  const FlatActionCount: int := NumMoves * NumAimAngles

  /** MOVE_LOOKUP: move index to the direction name the entities understand. */
  const MoveLookup: map<int, string> :=
    map[0 := "left", 1 := "right", 2 := "up", 3 := "down", 4 := "none"]

  function Min(a: int, b: int): int { if a <= b then a else b }

  function Max(a: int, b: int): int { if a >= b then a else b }

  /** Python's `max(lo, min(hi, v))`. */
  function ClampInt(lo: int, hi: int, v: int): (r: int)
    requires lo <= hi
    ensures lo <= r <= hi
    ensures lo <= v <= hi ==> r == v
    ensures v < lo ==> r == lo
    ensures hi < v ==> r == hi
  {
    Max(lo, Min(hi, v))
  }

  /**
   * Python's `round(angle / 90)` for an angle in whole degrees: the
   * nearest number of quarter turns, ties going to the even one.
   */
  function RoundQuarterTurns(angle: int): (q: int)
    ensures -45 <= angle - 90 * q <= 45
    ensures angle - 90 * q == 45 || angle - 90 * q == -45 ==> q % 2 == 0
  {
    var d := angle / 90;
    var m := angle % 90;
    if m < 45 then d
    else if m > 45 then d + 1
    else if d % 2 == 0 then d
    else d + 1
  }

  /** flat_action_to_move_and_angle: total, the input is clamped into [0, 19] first. */
  function FlatActionToMoveAndAngle(flatAction: int): (r: (int, int))
    ensures 0 <= r.0 < NumMoves
    ensures 0 <= r.1 <= 270 && r.1 % 90 == 0
    ensures r.0 * NumAimAngles + r.1 / 90 == ClampInt(0, FlatActionCount - 1, flatAction)
  {
    var flat := Max(0, Min(19, flatAction));
    var move := flat / NumAimAngles;
    var angle := (flat % NumAimAngles) * 90;
    (move, angle)
  }

  /** move_and_angle_to_flat_action: total, the move is clamped and the angle snapped. */
  function MoveAndAngleToFlatAction(move: int, angleDegrees: int): (r: int)
    ensures 0 <= r < FlatActionCount
    ensures r / NumAimAngles == ClampInt(0, NumMoves - 1, move)
    ensures r % NumAimAngles == RoundQuarterTurns(angleDegrees) % 4
  {
    var m := Max(0, Min(4, move));
    var angleIdx := RoundQuarterTurns(angleDegrees) % 4;
    m * NumAimAngles + angleIdx
  }

  /** Decoding then encoding gives back every flat action in range. */
  lemma FlatActionRoundTrip(f: int)
    requires 0 <= f < FlatActionCount
    ensures MoveAndAngleToFlatAction(FlatActionToMoveAndAngle(f).0, FlatActionToMoveAndAngle(f).1) == f
  {
    var (move, angle) := FlatActionToMoveAndAngle(f);
    var k := angle / 90;
    assert angle == 90 * k;
    QuarterTurnsOfMultiple(k);
  }

  /** An exact multiple 90*k of a right angle snaps to k quarter turns. */
  lemma QuarterTurnsOfMultiple(k: int)
    ensures RoundQuarterTurns(90 * k) == k
  {
    var q := RoundQuarterTurns(90 * k);
    assert -45 <= 90 * (k - q) <= 45;
  }

  /** For an angle 90*k the angle index is k mod 4 (Python's non-negative `%`). */
  lemma AngleIndexOfMultiple(move: int, k: int)
    ensures MoveAndAngleToFlatAction(move, 90 * k) == ClampInt(0, 4, move) * 4 + k % 4
  {
    QuarterTurnsOfMultiple(k);
  }

  /** Encoding then decoding gives back the clamped move and the snapped angle. */
  lemma EncodeThenDecode(move: int, k: int)
    ensures FlatActionToMoveAndAngle(MoveAndAngleToFlatAction(move, 90 * k))
         == (ClampInt(0, 4, move), (k % 4) * 90)
  {
    AngleIndexOfMultiple(move, k);
  }

  // ---------------------------------------------------------------------
  // Messages
  // ---------------------------------------------------------------------

  /** _build_player_state, _build_enemy_state, _build_bullet_state on the wire. */
  datatype PlayerState = PlayerState(id: int, x: int, y: int, health: int, size: int)
  datatype EnemyState = EnemyState(x: int, y: int, size: int)
  datatype BulletState = BulletState(x: int, y: int, velX: int, velY: int, isFriendly: bool, size: int)

  /**
   * The value of the "action" field as the server reads it with
   * `msg.get("action", 0)`: a JSON integer, a JSON boolean (a Python
   * `bool` is an `int`), no field at all, or anything else.
   */
  datatype ActionField = IntAction(value: int) | BoolAction(flag: bool) | AbsentAction | OtherAction

  /**
   * A decoded payload. `Join.token` is `None` when the field is missing or
   * is not a string (neither equals a configured secret). `OtherType` is a
   * mapping whose "type" is missing or unknown; `NotAnObject` is valid JSON
   * that is not a mapping at all (a number, a list, a string).
   */
  datatype Message =
    | Join(token: Option<string>)
    | Welcome(clientId: int, x: int, y: int, worldWidth: int, worldHeight: int, entitySize: int)
    | Reject(reason: string)
    | Action(action: ActionField)
    | Update(you: PlayerState, players: seq<PlayerState>, enemies: seq<EnemyState>, bullets: seq<BulletState>)
    | OtherType
    | NotAnObject

  // ---------------------------------------------------------------------
  // Framing
  // ---------------------------------------------------------------------

  type Byte = b: int | 0 <= b < 256

  const LengthPrefixBytes: int := 4
  /** Payloads announced longer than this are refused (10 MiB). */
  const MaxPayloadLength: int := 10 * 1024 * 1024
  /** `struct.pack(">I", n)` only accepts n below this. */
  const LengthLimit: int := 0x1_0000_0000

  /** struct.pack(">I", n): four bytes, most significant first. */
  function EncodeLength(n: int): (r: seq<Byte>)
    requires 0 <= n < LengthLimit
    ensures |r| == LengthPrefixBytes
  {
    [n / 0x100_0000, (n / 0x1_0000) % 0x100, (n / 0x100) % 0x100, n % 0x100]
  }

  /** struct.unpack(">I", b). */
  function DecodeLength(b: seq<Byte>): (n: int)
    requires |b| == LengthPrefixBytes
    ensures 0 <= n < LengthLimit
  {
    (b[0] as int) * 0x100_0000 + (b[1] as int) * 0x1_0000 + (b[2] as int) * 0x100 + b[3] as int
  }

  lemma {:induction false} DecodeEncodeLength(n: int)
    requires 0 <= n < LengthLimit
    ensures DecodeLength(EncodeLength(n)) == n
  {
    var b := EncodeLength(n);
    assert n == (n / 0x100) * 0x100 + n % 0x100;
    assert n / 0x100 == (n / 0x1_0000) * 0x100 + (n / 0x100) % 0x100;
    assert n / 0x1_0000 == (n / 0x100_0000) * 0x100 + (n / 0x1_0000) % 0x100;
    assert n / 0x1_0000 == (n / 0x100) / 0x100;
    assert n / 0x100_0000 == (n / 0x1_0000) / 0x100;
  }

  /** Quotient and remainder by a power of 256 are determined by any decomposition. */
  lemma DivModPowers(n: int, q: int, r: int, d: int)
    requires d == 0x100 || d == 0x1_0000 || d == 0x100_0000
    requires 0 <= r < d && n == q * d + r
    ensures n / d == q && n % d == r
  {
    if d == 0x100 {
      assert n == q * 0x100 + r;
    } else if d == 0x1_0000 {
      assert n == q * 0x1_0000 + r;
    } else {
      assert n == q * 0x100_0000 + r;
    }
  }

  lemma {:induction false} EncodeDecodeLength(b: seq<Byte>)
    requires |b| == LengthPrefixBytes
    ensures EncodeLength(DecodeLength(b)) == b
  {
    var n := DecodeLength(b);
    var b0, b1, b2, b3 := b[0] as int, b[1] as int, b[2] as int, b[3] as int;
    DivModPowers(n, b0 * 0x1_0000 + b1 * 0x100 + b2, b3, 0x100);
    DivModPowers(n, b0 * 0x100 + b1, b2 * 0x100 + b3, 0x1_0000);
    DivModPowers(n, b0, b1 * 0x1_0000 + b2 * 0x100 + b3, 0x100_0000);
    DivModPowers(b0 * 0x1_0000 + b1 * 0x100 + b2, b0 * 0x100 + b1, b2, 0x100);
    DivModPowers(b0 * 0x100 + b1, b0, b1, 0x100);
    assert EncodeLength(n) == b;
  }

  /**
   * The bytes send_message writes for a payload: `None` when struct.pack
   * raises because the length does not fit in four bytes.
   */
  function Frame(payload: seq<Byte>): (r: Option<seq<Byte>>)
    ensures r.Some? <==> |payload| < LengthLimit
    ensures r.Some? ==> |r.value| == LengthPrefixBytes + |payload|
  {
    if |payload| < LengthLimit then Some(EncodeLength(|payload|) + payload) else None
  }

  /** A frame is the big-endian length of the payload followed by the payload itself. */
  lemma FrameLayout(payload: seq<Byte>)
    requires |payload| < LengthLimit
    ensures DecodeLength(Frame(payload).value[..LengthPrefixBytes]) == |payload|
    ensures Frame(payload).value[LengthPrefixBytes..] == payload
  {
    var f := Frame(payload).value;
    assert f[..LengthPrefixBytes] == EncodeLength(|payload|);
    DecodeEncodeLength(|payload|);
  }

  /** b"".join(chunks). */
  function Concat(chunks: seq<seq<Byte>>): seq<Byte>
  {
    if chunks == [] then [] else Concat(chunks[..|chunks| - 1]) + chunks[|chunks| - 1]
  }

  /**
   * One end of a stream connection. `inbound` holds the bytes the peer has
   * sent that this end has not read yet, and the peer closes after them;
   * `outbound` holds every byte this end has written.
   */
  class Socket {
    var inbound: seq<Byte>
    var outbound: seq<Byte>

    constructor (incoming: seq<Byte>)
      ensures inbound == incoming && outbound == []
    {
      inbound := incoming;
      outbound := [];
    }

    /**
     * sock.recv(n): at most n of the next bytes, as many as the network
     * happens to deliver; empty only at end of stream.
     */
    method Recv(n: int) returns (chunk: seq<Byte>)
      requires n > 0
      modifies this`inbound
      ensures old(inbound) == chunk + inbound
      ensures chunk == [] <==> old(inbound) == []
      ensures |chunk| <= n
    {
      if inbound == [] {
        chunk := [];
      } else {
        var k :| 1 <= k <= n && k <= |inbound|;
        chunk := inbound[..k];
        inbound := inbound[k..];
      }
    }

    /** sock.sendall(data). */
    method SendAll(data: seq<Byte>)
      modifies this`outbound
      ensures outbound == old(outbound) + data
    {
      outbound := outbound + data;
    }
  }

  /**
   * _recv_exact: exactly n bytes, the chunks joined in the order they were
   * read, or `None` when the stream ends first (having consumed the rest).
   */
  method RecvExact(sock: Socket, n: nat) returns (r: Option<seq<Byte>>)
    modifies sock`inbound
    ensures n <= |old(sock.inbound)| ==>
      r == Some(old(sock.inbound)[..n]) && sock.inbound == old(sock.inbound)[n..]
    ensures |old(sock.inbound)| < n ==> r == None && sock.inbound == []
  {
    var buf: seq<seq<Byte>> := [];
    var remaining := n;
    while remaining > 0
      invariant 0 <= remaining <= n
      invariant old(sock.inbound) == Concat(buf) + sock.inbound
      invariant |Concat(buf)| + remaining == n
      decreases remaining
    {
      var chunk := sock.Recv(remaining);
      if chunk == [] {
        return None;
      }
      assert Concat(buf + [chunk]) == Concat(buf) + chunk by {
        assert (buf + [chunk])[..|buf|] == buf;
      }
      buf := buf + [chunk];
      remaining := remaining - |chunk|;
    }
    var data := Concat(buf);
    assert old(sock.inbound)[..n] == data;
    return Some(data);
  }

  /**
   * What recv_message does to a stream holding `data`: the message read
   * (`None` on end of stream, on a refused length, on a short payload or on
   * a decode error) and the bytes left unread.
   */
  function ReadMessage(data: seq<Byte>, parse: seq<Byte> -> Option<Message>): (r: (Option<Message>, seq<Byte>))
    ensures |r.1| <= |data|
    ensures r.0.Some? ==> |r.1| < |data|
  {
    if |data| < LengthPrefixBytes then (None, [])
    else
      var length := DecodeLength(data[..LengthPrefixBytes]);
      if length == 0 || length > MaxPayloadLength then (None, data[LengthPrefixBytes..])
      else if |data| < LengthPrefixBytes + length then (None, [])
      else (parse(data[LengthPrefixBytes..LengthPrefixBytes + length]), data[LengthPrefixBytes + length..])
  }

  /** recv_message. */
  method RecvMessage(sock: Socket, parse: seq<Byte> -> Option<Message>) returns (msg: Option<Message>)
    modifies sock`inbound
    ensures (msg, sock.inbound) == ReadMessage(old(sock.inbound), parse)
  {
    var lengthBuf := RecvExact(sock, LengthPrefixBytes);
    if lengthBuf.None? || lengthBuf.value == [] {
      return None;
    }
    var length := DecodeLength(lengthBuf.value);
    if length == 0 || length > MaxPayloadLength {
      return None;
    }
    ghost var afterPrefix := sock.inbound;
    var payloadBuf := RecvExact(sock, length);
    assert old(sock.inbound)[..LengthPrefixBytes] == lengthBuf.value;
    assert afterPrefix == old(sock.inbound)[LengthPrefixBytes..];
    if payloadBuf.None? || payloadBuf.value == [] || |payloadBuf.value| != length {
      return None;
    }
    assert payloadBuf.value == old(sock.inbound)[LengthPrefixBytes..LengthPrefixBytes + length];
    assert sock.inbound == old(sock.inbound)[LengthPrefixBytes + length..];
    return parse(payloadBuf.value);
  }

  /** send_message: nothing is written when the length prefix cannot be packed. */
  method SendMessage(sock: Socket, msg: Message, encode: Message -> seq<Byte>) returns (sent: bool)
    modifies sock`outbound
    ensures sent <==> |encode(msg)| < LengthLimit
    ensures sock.outbound == old(sock.outbound) + (if sent then Frame(encode(msg)).value else [])
  {
    var payload := encode(msg);
    var length := |payload|;
    if length >= LengthLimit {
      return false;
    }
    sock.SendAll(EncodeLength(length));
    sock.SendAll(payload);
    return true;
  }

  /**
   * A length of 0 or above 10 MiB yields no message, and no payload byte
   * is consumed: the stream is left right after the prefix.
   */
  lemma RefusedLengthReadsNoPayload(data: seq<Byte>, parse: seq<Byte> -> Option<Message>)
    requires |data| >= LengthPrefixBytes
    requires DecodeLength(data[..LengthPrefixBytes]) == 0 || DecodeLength(data[..LengthPrefixBytes]) > MaxPayloadLength
    ensures ReadMessage(data, parse) == (None, data[LengthPrefixBytes..])
  {
  }

  /** Reading back a frame yields exactly its payload and leaves what follows. */
  lemma FrameRoundTrip(payload: seq<Byte>, rest: seq<Byte>, parse: seq<Byte> -> Option<Message>)
    requires 0 < |payload| <= MaxPayloadLength
    ensures Frame(payload).Some?
    ensures ReadMessage(Frame(payload).value + rest, parse) == (parse(payload), rest)
  {
    var data := Frame(payload).value + rest;
    FrameLayout(payload);
    assert data[..LengthPrefixBytes] == Frame(payload).value[..LengthPrefixBytes];
    assert data[LengthPrefixBytes..LengthPrefixBytes + |payload|] == payload;
    assert data[LengthPrefixBytes + |payload|..] == rest;
  }

  /** A stream that ends before the announced payload is complete yields no message. */
  lemma TruncatedFrameIsNone(payload: seq<Byte>, k: nat, parse: seq<Byte> -> Option<Message>)
    requires 0 < |payload| <= MaxPayloadLength
    requires k < |payload|
    ensures ReadMessage(Frame(payload).value[..LengthPrefixBytes + k], parse) == (None, [])
  {
    var data := Frame(payload).value[..LengthPrefixBytes + k];
    FrameLayout(payload);
    assert data[..LengthPrefixBytes] == Frame(payload).value[..LengthPrefixBytes];
  }

  /**
   * End to end: whatever chunks the network cuts the stream into, a message
   * sent with send_message comes back out of recv_message, provided the JSON
   * oracle decodes what it encodes and the payload is within the ceiling.
   */
  method SendThenReceive(msg: Message, encode: Message -> seq<Byte>, parse: seq<Byte> -> Option<Message>)
    returns (received: Option<Message>)
    requires 0 < |encode(msg)| <= MaxPayloadLength
    requires parse(encode(msg)) == Some(msg)
    ensures received == Some(msg)
  {
    var writer := new Socket([]);
    var sent := SendMessage(writer, msg, encode);
    var reader := new Socket(writer.outbound);
    FrameRoundTrip(encode(msg), [], parse);
    assert reader.inbound == Frame(encode(msg)).value + [];
    received := RecvMessage(reader, parse);
  }
}

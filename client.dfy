/**
 * The two pieces of the multiplayer client that compute something: the
 * mapping from pressed keys to a flat action, and the camera clamp.
 */
module Client {
  import opened Protocol
  import opened Keyboard

  const ScreenWidth: int := 500
  const ScreenHeight: int := 500

  /** No move (4) and aim 0 degrees. */
  const DefaultFlatAction: int := 4 * 4 + 0

  /**
   * _keys_to_flat_action: the move is the first pressed of left, right,
   * up, down (none otherwise); the aim is the first pressed of keys 2, 3, 4
   * (index 0 otherwise). Decoding the result gives exactly that choice.
   */
  function KeysToFlatAction(keys: Keys): (r: int)
    ensures 0 <= r < FlatActionCount
    ensures var (move, angle) := FlatActionToMoveAndAngle(r);
      && (move == 0 <==> keys.left)
      && (move == 1 <==> !keys.left && keys.right)
      && (move == 2 <==> !keys.left && !keys.right && keys.up)
      && (move == 3 <==> !keys.left && !keys.right && !keys.up && keys.down)
      && (move == 4 <==> !keys.left && !keys.right && !keys.up && !keys.down)
      && (angle == 90 <==> keys.two)
      && (angle == 180 <==> !keys.two && keys.three)
      && (angle == 270 <==> !keys.two && !keys.three && keys.four)
      && (angle == 0 <==> !keys.two && !keys.three && !keys.four)
  {
    var move := MoveOfKeys(keys);
    var aimIdx := AimIndexOfKeys(keys);
    EncodeThenDecode(move, aimIdx);
    MoveAndAngleToFlatAction(move, aimIdx * 90)
  }

  /** The move index of the first pressed arrow among left, right, up, down; 4 when none is. */
  function MoveOfKeys(keys: Keys): (m: int)
    ensures 0 <= m < 5
    ensures (m == 0 <==> keys.left) && (m == 1 <==> !keys.left && keys.right)
    ensures (m == 2 <==> !keys.left && !keys.right && keys.up)
    ensures (m == 3 <==> !keys.left && !keys.right && !keys.up && keys.down)
  {
    if keys.left then 0
    else if keys.right then 1
    else if keys.up then 2
    else if keys.down then 3
    else 4
  }

  /** The aim index of the first pressed key among 2, 3, 4; 0 when none is. */
  function AimIndexOfKeys(keys: Keys): (a: int)
    ensures 0 <= a < 4
    ensures (a == 1 <==> keys.two) && (a == 2 <==> !keys.two && keys.three)
    ensures (a == 3 <==> !keys.two && !keys.three && keys.four)
  {
    if keys.two then 1
    else if keys.three then 2
    else if keys.four then 3
    else 0
  }

  /** With nothing pressed the client sends DEFAULT_FLAT_ACTION. */
  lemma NoKeysSendsDefault()
    ensures KeysToFlatAction(NoKeys) == DefaultFlatAction
  {
    AngleIndexOfMultiple(4, 0);
  }

  /**
   * The camera clamp of run_client on one axis: centre the screen on the
   * player, then `max(0, min(world - screen, c))`.
   */
  function CameraOffset(myPos: int, mySize: int, worldExtent: int, screenExtent: int): (c: int)
    ensures c >= 0
    ensures worldExtent >= screenExtent ==> c <= worldExtent - screenExtent
    ensures worldExtent <= screenExtent ==> c == 0
    ensures 0 <= myPos + mySize / 2 - screenExtent / 2 <= worldExtent - screenExtent ==>
      c == myPos + mySize / 2 - screenExtent / 2
  {
    var centred := myPos + mySize / 2 - screenExtent / 2;
    Max(0, Min(worldExtent - screenExtent, centred))
  }

  /** With the default 500-wide world and 500-wide screen the camera never moves. */
  lemma DefaultCameraIsFixed(myPos: int, mySize: int)
    ensures CameraOffset(myPos, mySize, 500, ScreenWidth) == 0
  {
  }
}

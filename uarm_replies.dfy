/**
 * The response adapters of the threaded uArm API. Each command waits for the
 * tokens the arm sent back under its sequence id (None when none arrived in
 * time) and decides from the first token, OK or not, what to return. The
 * numeric fields stay tokens: their float conversion is not modelled.
 */
module UArmReplies {
  import opened Wrappers
  import opened Text

  /** What `send_and_receive` hands an adapter: the tokens after the id, or
      None when the wait timed out. */
  type Reply = Option<seq<string>>

  /** The reply has a first token and it is the OK token. */
  predicate Acknowledged(ok: string, reply: Reply) {
    reply.Some? && |reply.value| >= 1 && reply.value[0] == ok
  }

  /** `token[1:]`: the value after its one-letter tag. */
  function Untagged(token: string): (r: string)
    ensures |r| == if token == [] then 0 else |token| - 1
    ensures token != [] ==> token == [token[0]] + r
  {
    if token == [] then [] else token[1..]
  }

  /** The wait-mode setters (`set_pump`, `set_gripper`, `set_servo_angle`,
      `set_buzzer`, `set_report_position`): None when nothing came back (or
      the reply had no token, an IndexError the decorator swallows), True on
      OK, False on anything else. */
  function SetterResult(ok: string, reply: Reply): (r: Option<bool>)
    ensures r.None? <==> reply.None? || reply.value == []
    ensures r == Some(true) <==> Acknowledged(ok, reply)
    ensures r == Some(false) <==> reply.Some? && reply.value != [] && reply.value[0] != ok
  {
    match reply
    case None => None
    case Some(fields) => if fields == [] then None else Some(fields[0] == ok)
  }

  /** `get_is_moving`: on OK, `int(token[1:])` of the second token; 0 is
      "not moving", 1 is "moving", and anything else (another number, a
      missing or non-numeric token) gives None. */
  function IsMovingResult(ok: string, reply: Reply): (r: Option<bool>)
    ensures r == Some(false) <==>
      Acknowledged(ok, reply) && |reply.value| >= 2 && ParseInt(Untagged(reply.value[1])) == Some(0)
    ensures r == Some(true) <==>
      Acknowledged(ok, reply) && |reply.value| >= 2 && ParseInt(Untagged(reply.value[1])) == Some(1)
  {
    if !Acknowledged(ok, reply) || |reply.value| < 2 then None
    else match ParseInt(Untagged(reply.value[1]))
      case Some(0) => Some(false)
      case Some(1) => Some(true)
      case _ => None
  }

  lemma IsMovingExamples(ok: string)
    requires ok != "FAIL"
    ensures IsMovingResult(ok, Some([ok, "V0"])) == Some(false)
    ensures IsMovingResult(ok, Some([ok, "V1"])) == Some(true)
    ensures IsMovingResult(ok, Some([ok, "V2"])) == None
    ensures IsMovingResult(ok, Some(["FAIL", "V1"])) == None
    ensures IsMovingResult(ok, None) == None
  {
    assert ParseInt("0") == Some(0);
    assert ParseInt("1") == Some(1);
    assert ParseInt("2") == Some(2);
  }

  /** `get_tip_sensor`: on OK, the token "V0" means the sensor is pressed
      (True) and "V1" means it is not (False); anything else gives None. */
  function TipSensorResult(ok: string, reply: Reply): (r: Option<bool>)
    ensures r == Some(true) <==> Acknowledged(ok, reply) && |reply.value| >= 2 && reply.value[1] == "V0"
    ensures r == Some(false) <==> Acknowledged(ok, reply) && |reply.value| >= 2 && reply.value[1] == "V1"
  {
    if !Acknowledged(ok, reply) || |reply.value| < 2 then None
    else if reply.value[1] == "V0" then Some(true)
    else if reply.value[1] == "V1" then Some(false)
    else None
  }

  /** `get_position`: on OK, the three coordinates with their tags dropped. */
  function PositionResult(ok: string, reply: Reply): (r: Option<seq<string>>)
    ensures r.Some? <==> Acknowledged(ok, reply) && |reply.value| >= 4
    ensures r.Some? ==>
      |r.value| == 3 && forall k :: 0 <= k < 3 ==> r.value[k] == Untagged(reply.value[k + 1])
  {
    if Acknowledged(ok, reply) && |reply.value| >= 4 then
      Some([Untagged(reply.value[1]), Untagged(reply.value[2]), Untagged(reply.value[3])])
    else None
  }

  /** The angles `get_servo_angle` returns: all four, or the one asked for. */
  datatype AngleSelection = AllAngles(angles: seq<string>) | OneAngle(angle: string)

  /** `get_servo_angle(servo_num)`: on OK all four angle tokens are read
      (fewer than four is an IndexError, so None); no servo number gives all
      four, servo 0..3 gives that one, any other number gives None. */
  function ServoAngleResult(ok: string, reply: Reply, servo: Option<int>): (r: Option<AngleSelection>)
    ensures r.Some? ==> Acknowledged(ok, reply) && |reply.value| >= 5
    ensures r.Some? && servo.None? ==>
      r.value.AllAngles? && |r.value.angles| == 4 && forall k :: 0 <= k < 4 ==> r.value.angles[k] == Untagged(reply.value[k + 1])
    ensures r.Some? && servo.Some? ==>
      0 <= servo.value <= 3 && r.value == OneAngle(Untagged(reply.value[servo.value + 1]))
    ensures Acknowledged(ok, reply) && |reply.value| >= 5 && (servo.None? || 0 <= servo.value <= 3) ==> r.Some?
  {
    if !Acknowledged(ok, reply) || |reply.value| < 5 then None
    else
      var angles := [Untagged(reply.value[1]), Untagged(reply.value[2]),
                     Untagged(reply.value[3]), Untagged(reply.value[4])];
      match servo
      case None => Some(AllAngles(angles))
      case Some(n) => if 0 <= n <= 3 then Some(OneAngle(angles[n])) else None
  }

  /** `firmware_version`: on OK, the second token with every 'V' removed;
      a missing token is an IndexError, so None. */
  function VersionResult(ok: string, reply: Reply): (r: Option<string>)
    ensures r.Some? <==> Acknowledged(ok, reply) && |reply.value| >= 2
    ensures r.Some? ==> 'V' !in r.value && r.value == RemoveChar(reply.value[1], 'V')
  {
    if Acknowledged(ok, reply) && |reply.value| >= 2 then Some(RemoveChar(reply.value[1], 'V'))
    else None
  }
}

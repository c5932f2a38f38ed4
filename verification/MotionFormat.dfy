/**
 The keyframe-motion file format: what each field reads from a position, and which files are
 refused.  Appending bytes to a file changes nothing but an early end, and what is accepted is
 within the format's limits.  Numbers are real; how 32 bits spell one, and the trigonometry of
 rotations, are parameters.
 */
module MotionFormat {
  import opened Wrappers
  import opened WireFields
  import opened Vectors

  datatype Field =
    | Version | SubVersion | BasePriority | Duration | EmoteName
    | LoopIn | LoopOut | Loop | EaseIn | EaseOut | HandPoseField
    | NumJoints | JointName | JointPriorityField | NumRotKeys | NumPosKeys
    | RotTime | RotX | RotY | RotZ | PosTime | PosX | PosY | PosZ
    | NumConstraints | ChainLength | ConstraintTypeField
    | SourceVolume | SourceOffset | TargetVolume | TargetOffset | TargetDir
    | EaseInStart | EaseInStop | EaseOutStart | EaseOutStop

  datatype AnimError =
    | UnexpectedEof(field: Field)
    | UnsupportedVersion(version: nat, subVersion: nat)
    | BadBasePriority(priority: int)
    | InvalidDuration
    | NonFinite(field: Field)
    | NoJoints
    | TooManyJoints(count: nat)
    | BadJointPriority(priority: int)
    | NegativeKeyCount(field: Field)
    | InvalidHandPose(value: nat)
    | KeyTimeOutOfRange(time: real, duration: real)
    | InvalidConstraintType(value: nat)
    | ConstraintChainTooLong(length: nat, joints: nat)

  type Bytes = seq<byte>

  type Read<T> = Result<(T, nat), AnimError>

  /** The number that 32 bits spell if it is finite, the rotation of three angles, and the rotation
      completed from three components. */
  datatype Numbers = Numbers(finite: nat -> Option<real>, euler: Vec3 -> Quat, complete: Vec3 -> Quat)

  datatype RotationKey = RotationKey(time: real, rotation: Quat)

  datatype PositionKey = PositionKey(time: real, position: Vec3)

  datatype Joint = Joint(name: Bytes, priority: int, rotations: seq<RotationKey>, positions: seq<PositionKey>)

  datatype ConstraintType = Point | Plane

  datatype Target = Ground | Body(volume: Bytes)

  datatype Constraint = Constraint(
    chainLength: nat, kind: ConstraintType, source: Bytes, sourceOffset: Vec3, target: Target, targetOffset: Vec3,
    targetDir: Vec3, easing: seq<real>)

  datatype Header = Header(legacy: bool, basePriority: int, duration: real, emote: Bytes)

  datatype Timing = Timing(loopIn: real, loopOut: real, loops: bool, easeIn: real, easeOut: real, handPose: nat)

  datatype Motion = Motion(header: Header, timing: Timing, joints: seq<Joint>, constraints: seq<Constraint>)

  const USE_MOTION := -1
  const ADDITIVE := 7
  const ADDITIVE_CLAMPED := 6
  const MAX_ANIM_DURATION := 60.0
  const MAX_PELVIS_OFFSET := 5.0
  const MAX_ANIMATED_JOINTS := 216
  const MAX_CONSTRAINTS := 10
  const NUM_HAND_POSES := 14
  const VOLUME_NAME_LEN := 16

  // ---------------------------------------------------------------------------------
  // The cursor's reads.

  function Take(d: Bytes, pos: nat, n: nat, field: Field): Read<Bytes> {
    if pos + n <= |d| then Ok((d[pos..pos + n], pos + n)) else Err(AnimError.UnexpectedEof(field))
  }

  function Unsigned(d: Bytes, pos: nat, width: nat, field: Field): Read<nat> {
    var bytes :- Take(d, pos, width, field);
    Ok((FromLittleEndian(bytes.0), bytes.1))
  }

  function Signed(d: Bytes, pos: nat, field: Field): Read<int> {
    var u :- Unsigned(d, pos, 4, field);
    Ok((FromUnsigned(u.0, 4), u.1))
  }

  /** A number, which must be finite. */
  function Finite(nums: Numbers, d: Bytes, pos: nat, field: Field): Read<real> {
    var u :- Unsigned(d, pos, 4, field);
    match nums.finite(u.0)
    case None => Err(NonFinite(field))
    case Some(x) => Ok((x, u.1))
  }

  /** The position of the next zero byte, or the end. */
  function NulAt(d: Bytes, pos: nat): (at: nat)
    requires pos <= |d|
    ensures pos <= at <= |d| && (at < |d| ==> d[at] == 0) && forall i | pos <= i < at :: d[i] != 0
    decreases |d| - pos
  {
    if pos < |d| && d[pos] != 0 then NulAt(d, pos + 1) else pos
  }

  /** A zero-terminated string. */
  function CString(d: Bytes, pos: nat, field: Field): Read<Bytes> {
    if pos > |d| || NulAt(d, pos) == |d| then Err(AnimError.UnexpectedEof(field))
    else Ok((d[pos..NulAt(d, pos)], NulAt(d, pos) + 1))
  }

  /** A zero-padded string of a fixed length. */
  function FixedName(d: Bytes, pos: nat, n: nat, field: Field): Read<Bytes> {
    var bytes :- Take(d, pos, n, field);
    Ok((bytes.0[..NulAt(bytes.0, 0)], bytes.1))
  }

  /** Three numbers in a row, each read as `field`s says. */
  function FiniteVec3(nums: Numbers, d: Bytes, pos: nat, fx: Field, fy: Field, fz: Field): Read<Vec3> {
    var x :- Finite(nums, d, pos, fx);
    var y :- Finite(nums, d, x.1, fy);
    var z :- Finite(nums, d, y.1, fz);
    Ok((Vec3(x.0, y.0, z.0), z.1))
  }

  /** Three 16-bit numbers in a row. */
  function ThreeU16(d: Bytes, pos: nat, fx: Field, fy: Field, fz: Field): Read<(nat, nat, nat)> {
    var x :- Unsigned(d, pos, 2, fx);
    var y :- Unsigned(d, x.1, 2, fy);
    var z :- Unsigned(d, y.1, 2, fz);
    Ok(((x.0, y.0, z.0), z.1))
  }

  function Spread(v: (nat, nat, nat), lower: real, upper: real): Vec3 {
    Vec3(Widen(v.0, lower, upper), Widen(v.1, lower, upper), Widen(v.2, lower, upper))
  }

  /** Three 16-bit fractions in a row, spread over `lower..=upper`. */
  function QuantisedVec3(d: Bytes, pos: nat, fx: Field, fy: Field, fz: Field, lower: real, upper: real): Read<Vec3> {
    var v :- ThreeU16(d, pos, fx, fy, fz);
    Ok((Spread(v.0, lower, upper), v.1))
  }

  /** A 16-bit fraction of the way from `lower` to `upper`; less than a step from zero is zero. */
  function Widen(value: nat, lower: real, upper: real): real {
    var delta := upper - lower;
    var scaled := value as real / 65535.0 * delta + lower;
    var step := delta / 65535.0;
    if (if scaled >= 0.0 then scaled else -scaled) < step then 0.0 else scaled
  }

  function Clamped(x: real): real {
    if x < -MAX_PELVIS_OFFSET then -MAX_PELVIS_OFFSET else if x > MAX_PELVIS_OFFSET then MAX_PELVIS_OFFSET else x
  }

  // ---------------------------------------------------------------------------------
  // Keyframes and joints.

  function OldRotationKey(nums: Numbers, d: Bytes, pos: nat): Read<RotationKey> {
    var time :- Finite(nums, d, pos, RotTime);
    var angles :- FiniteVec3(nums, d, time.1, RotX, RotY, RotZ);
    Ok((RotationKey(time.0, nums.euler(angles.0)), angles.1))
  }

  function NewRotationKey(nums: Numbers, d: Bytes, pos: nat, duration: real): Read<RotationKey> {
    var u :- Unsigned(d, pos, 2, RotTime);
    var time := Widen(u.0, 0.0, duration);
    if time < 0.0 || time > duration then Err(KeyTimeOutOfRange(time, duration))
    else
      var v :- QuantisedVec3(d, u.1, RotX, RotY, RotZ, -1.0, 1.0);
      Ok((RotationKey(time, nums.complete(v.0)), v.1))
  }

  function OldPositionKey(nums: Numbers, d: Bytes, pos: nat): Read<PositionKey> {
    var time :- Finite(nums, d, pos, PosTime);
    var v :- FiniteVec3(nums, d, time.1, PosX, PosY, PosZ);
    Ok((PositionKey(time.0, Vec3(Clamped(v.0.x), Clamped(v.0.y), Clamped(v.0.z))), v.1))
  }

  function NewPositionKey(d: Bytes, pos: nat, duration: real): Read<PositionKey> {
    var u :- Unsigned(d, pos, 2, PosTime);
    var v :- QuantisedVec3(d, u.1, PosX, PosY, PosZ, -MAX_PELVIS_OFFSET, MAX_PELVIS_OFFSET);
    Ok((PositionKey(Widen(u.0, 0.0, duration), v.0), v.1))
  }

  function OneRotationKey(nums: Numbers, d: Bytes, pos: nat, h: Header): Read<RotationKey> {
    if h.legacy then OldRotationKey(nums, d, pos) else NewRotationKey(nums, d, pos, h.duration)
  }

  function OnePositionKey(nums: Numbers, d: Bytes, pos: nat, h: Header): Read<PositionKey> {
    if h.legacy then OldPositionKey(nums, d, pos) else NewPositionKey(d, pos, h.duration)
  }

  function RotationKeys(nums: Numbers, d: Bytes, pos: nat, h: Header, n: nat,
                        keys: seq<RotationKey>): Read<seq<RotationKey>>
    decreases n, 1
  {
    if n == 0 then Ok((keys, pos)) else MoreRotationKeys(nums, d, pos, h, n, keys)
  }

  /** At least one key more; a step of its own, so that a proof can stop unfolding here. */
  function MoreRotationKeys(nums: Numbers, d: Bytes, pos: nat, h: Header, n: nat,
                            keys: seq<RotationKey>): Read<seq<RotationKey>>
    requires n > 0
    decreases n, 0
  {
    var key :- OneRotationKey(nums, d, pos, h);
    RotationKeys(nums, d, key.1, h, n - 1, keys + [key.0])
  }

  lemma RotationKeysNext(nums: Numbers, d: Bytes, pos: nat, h: Header, n: nat, keys: seq<RotationKey>)
    requires n > 0
    ensures var key, all := OneRotationKey(nums, d, pos, h), RotationKeys(nums, d, pos, h, n, keys);
            match key
            case Err(e) => all == Err(e)
            case Ok(k) => all == RotationKeys(nums, d, k.1, h, n - 1, keys + [k.0])
  {
    assert RotationKeys(nums, d, pos, h, n, keys) == MoreRotationKeys(nums, d, pos, h, n, keys);
  }

  function PositionKeys(nums: Numbers, d: Bytes, pos: nat, h: Header, n: nat,
                        keys: seq<PositionKey>): Read<seq<PositionKey>>
    decreases n, 1
  {
    if n == 0 then Ok((keys, pos)) else MorePositionKeys(nums, d, pos, h, n, keys)
  }

  /** At least one key more; a step of its own, so that a proof can stop unfolding here. */
  function MorePositionKeys(nums: Numbers, d: Bytes, pos: nat, h: Header, n: nat,
                            keys: seq<PositionKey>): Read<seq<PositionKey>>
    requires n > 0
    decreases n, 0
  {
    var key :- OnePositionKey(nums, d, pos, h);
    PositionKeys(nums, d, key.1, h, n - 1, keys + [key.0])
  }

  lemma PositionKeysNext(nums: Numbers, d: Bytes, pos: nat, h: Header, n: nat, keys: seq<PositionKey>)
    requires n > 0
    ensures var key, all := OnePositionKey(nums, d, pos, h), PositionKeys(nums, d, pos, h, n, keys);
            match key
            case Err(e) => all == Err(e)
            case Ok(k) => all == PositionKeys(nums, d, k.1, h, n - 1, keys + [k.0])
  {
    assert PositionKeys(nums, d, pos, h, n, keys) == MorePositionKeys(nums, d, pos, h, n, keys);
  }

  function KeyCount(d: Bytes, pos: nat, field: Field): Read<nat> {
    var n :- Signed(d, pos, field);
    if n.0 < 0 then Err(NegativeKeyCount(field)) else Ok((n.0, n.1))
  }

  function JointPriority(d: Bytes, pos: nat): Read<int> {
    var p :- Signed(d, pos, JointPriorityField);
    if p.0 < USE_MOTION then Err(BadJointPriority(p.0)) else Ok(p)
  }

  function RotationTrack(nums: Numbers, d: Bytes, pos: nat, h: Header): Read<seq<RotationKey>> {
    var n :- KeyCount(d, pos, NumRotKeys);
    RotationKeys(nums, d, n.1, h, n.0, [])
  }

  function PositionTrack(nums: Numbers, d: Bytes, pos: nat, h: Header): Read<seq<PositionKey>> {
    var n :- KeyCount(d, pos, NumPosKeys);
    PositionKeys(nums, d, n.1, h, n.0, [])
  }

  function OneJoint(nums: Numbers, d: Bytes, pos: nat, h: Header): Read<Joint> {
    var name :- CString(d, pos, JointName);
    var priority :- JointPriority(d, name.1);
    var rotations :- RotationTrack(nums, d, priority.1, h);
    var positions :- PositionTrack(nums, d, rotations.1, h);
    Ok((Joint(name.0, priority.0, rotations.0, positions.0), positions.1))
  }

  function Joints(nums: Numbers, d: Bytes, pos: nat, h: Header, n: nat, joints: seq<Joint>): Read<seq<Joint>>
    decreases n, 0
  {
    if n == 0 then Ok((joints, pos)) else SomeJoints(nums, d, pos, h, n - 1, joints)
  }

  /** At least one joint; a step of its own, so that a proof can stop unfolding here. */
  function SomeJoints(nums: Numbers, d: Bytes, pos: nat, h: Header, n: nat, joints: seq<Joint>): Read<seq<Joint>>
    decreases n, 2
  {
    JointsAfter(nums, d, pos, h, n, joints)
  }

  /** One more joint and those that follow. */
  function JointsAfter(nums: Numbers, d: Bytes, pos: nat, h: Header, n: nat, joints: seq<Joint>): Read<seq<Joint>>
    decreases n, 1
  {
    var joint :- OneJoint(nums, d, pos, h);
    Joints(nums, d, joint.1, h, n, joints + [joint.0])
  }

  // ---------------------------------------------------------------------------------
  // Constraints.

  function Chain(d: Bytes, pos: nat, joints: nat): Read<nat> {
    var length :- Unsigned(d, pos, 1, ChainLength);
    if length.0 > joints then Err(ConstraintChainTooLong(length.0, joints)) else Ok(length)
  }

  function Kind(d: Bytes, pos: nat): Read<ConstraintType> {
    var k :- Unsigned(d, pos, 1, ConstraintTypeField);
    if k.0 == 0 then Ok((Point, k.1)) else if k.0 == 1 then Ok((Plane, k.1)) else Err(InvalidConstraintType(k.0))
  }

  const GROUND: Bytes := [0x47, 0x52, 0x4F, 0x55, 0x4E, 0x44]

  function TargetOf(name: Bytes): Target { if name == GROUND then Ground else Body(name) }

  datatype Ends = Ends(source: Bytes, sourceOffset: Vec3, target: Target, targetOffset: Vec3, targetDir: Vec3)

  /** A collision volume and a point relative to it. */
  function Anchored(nums: Numbers, d: Bytes, pos: nat, volume: Field, offset: Field): Read<(Bytes, Vec3)> {
    var name :- FixedName(d, pos, VOLUME_NAME_LEN, volume);
    var point :- FiniteVec3(nums, d, name.1, offset, offset, offset);
    Ok(((name.0, point.0), point.1))
  }

  function ReadEnds(nums: Numbers, d: Bytes, pos: nat): Read<Ends> {
    var source :- Anchored(nums, d, pos, SourceVolume, SourceOffset);
    var target :- Anchored(nums, d, source.1, TargetVolume, TargetOffset);
    var dir :- FiniteVec3(nums, d, target.1, TargetDir, TargetDir, TargetDir);
    Ok((Ends(source.0.0, source.0.1, TargetOf(target.0.0), target.0.1, dir.0), dir.1))
  }

  function Easing(nums: Numbers, d: Bytes, pos: nat): Read<seq<real>> {
    var a :- Finite(nums, d, pos, EaseInStart);
    var b :- Finite(nums, d, a.1, EaseInStop);
    var c :- Finite(nums, d, b.1, EaseOutStart);
    var e :- Finite(nums, d, c.1, EaseOutStop);
    Ok(([a.0, b.0, c.0, e.0], e.1))
  }

  function OneConstraint(nums: Numbers, d: Bytes, pos: nat, joints: nat): Read<Constraint> {
    var length :- Chain(d, pos, joints);
    var kind :- Kind(d, length.1);
    var ends :- ReadEnds(nums, d, kind.1);
    var easing :- Easing(nums, d, ends.1);
    var e := ends.0;
    Ok((Constraint(length.0, kind.0, e.source, e.sourceOffset, e.target, e.targetOffset, e.targetDir, easing.0),
        easing.1))
  }

  function ConstraintList(nums: Numbers, d: Bytes, pos: nat, joints: nat, n: nat,
                          list: seq<Constraint>): Read<seq<Constraint>>
    decreases n, 0
  {
    if n == 0 then Ok((list, pos)) else SomeConstraints(nums, d, pos, joints, n - 1, list)
  }

  /** At least one constraint; a step of its own, so that a proof can stop unfolding here. */
  function SomeConstraints(nums: Numbers, d: Bytes, pos: nat, joints: nat, n: nat,
                           list: seq<Constraint>): Read<seq<Constraint>>
    decreases n, 2
  {
    ConstraintsAfter(nums, d, pos, joints, n, list)
  }

  /** One more constraint and those that follow. */
  function ConstraintsAfter(nums: Numbers, d: Bytes, pos: nat, joints: nat, n: nat,
                            list: seq<Constraint>): Read<seq<Constraint>>
    decreases n, 1
  {
    var c :- OneConstraint(nums, d, pos, joints);
    ConstraintList(nums, d, c.1, joints, n, list + [c.0])
  }

  /** A count that cannot be right means no constraints. */
  function Constraints(nums: Numbers, d: Bytes, pos: nat, joints: nat): Read<seq<Constraint>> {
    var n :- Signed(d, pos, NumConstraints);
    if n.0 < 0 || n.0 > MAX_CONSTRAINTS then Ok(([], n.1)) else ConstraintList(nums, d, n.1, joints, n.0, [])
  }

  // ---------------------------------------------------------------------------------
  // The whole file.

  function ReadVersion(d: Bytes, pos: nat): Read<bool> {
    var version :- Unsigned(d, pos, 2, Version);
    var sub :- Unsigned(d, version.1, 2, SubVersion);
    if version.0 == 1 && sub.0 == 0 then Ok((false, sub.1))
    else if version.0 == 0 && sub.0 == 1 then Ok((true, sub.1))
    else Err(UnsupportedVersion(version.0, sub.0))
  }

  function ReadBasePriority(d: Bytes, pos: nat): Read<int> {
    var p :- Signed(d, pos, BasePriority);
    if p.0 < USE_MOTION then Err(BadBasePriority(p.0))
    else if p.0 >= ADDITIVE then Ok((ADDITIVE_CLAMPED, p.1))
    else Ok(p)
  }

  function ReadDuration(nums: Numbers, d: Bytes, pos: nat): Read<real> {
    var u :- Unsigned(d, pos, 4, Duration);
    match nums.finite(u.0)
    case None => Err(InvalidDuration)
    case Some(x) => if x > MAX_ANIM_DURATION then Err(InvalidDuration) else Ok((x, u.1))
  }

  function ReadHeader(nums: Numbers, d: Bytes, pos: nat): Read<Header> {
    var legacy :- ReadVersion(d, pos);
    var priority :- ReadBasePriority(d, legacy.1);
    var duration :- ReadDuration(nums, d, priority.1);
    var emote :- CString(d, duration.1, EmoteName);
    Ok((Header(legacy.0, priority.0, duration.0, emote.0), emote.1))
  }

  function ReadHandPose(d: Bytes, pos: nat): Read<nat> {
    var pose :- Unsigned(d, pos, 4, HandPoseField);
    if pose.0 > NUM_HAND_POSES then Err(InvalidHandPose(pose.0)) else Ok(pose)
  }

  function ReadLoop(nums: Numbers, d: Bytes, pos: nat): Read<(real, real, bool)> {
    var loopIn :- Finite(nums, d, pos, LoopIn);
    var loopOut :- Finite(nums, d, loopIn.1, LoopOut);
    var loops :- Signed(d, loopOut.1, Loop);
    Ok(((loopIn.0, loopOut.0, loops.0 != 0), loops.1))
  }

  function ReadTiming(nums: Numbers, d: Bytes, pos: nat): Read<Timing> {
    var loop :- ReadLoop(nums, d, pos);
    var easeIn :- Finite(nums, d, loop.1, EaseIn);
    var easeOut :- Finite(nums, d, easeIn.1, EaseOut);
    var pose :- ReadHandPose(d, easeOut.1);
    Ok((Timing(loop.0.0, loop.0.1, loop.0.2, easeIn.0, easeOut.0, pose.0), pose.1))
  }

  function JointCount(d: Bytes, pos: nat): Read<nat> {
    var n :- Unsigned(d, pos, 4, NumJoints);
    if n.0 == 0 then Err(NoJoints) else if n.0 > MAX_ANIMATED_JOINTS then Err(TooManyJoints(n.0)) else Ok(n)
  }

  function ReadBody(nums: Numbers, d: Bytes, pos: nat, h: Header): Read<(seq<Joint>, seq<Constraint>)> {
    var n :- JointCount(d, pos);
    var joints :- Joints(nums, d, n.1, h, n.0, []);
    var constraints :- Constraints(nums, d, joints.1, n.0);
    Ok(((joints.0, constraints.0), constraints.1))
  }

  function ReadMotion(nums: Numbers, d: Bytes): Read<Motion> {
    var header :- ReadHeader(nums, d, 0);
    var timing :- ReadTiming(nums, d, header.1);
    var body :- ReadBody(nums, d, timing.1, header.0);
    Ok((Motion(header.0, timing.0, body.0.0, body.0.1), body.1))
  }

  // ---------------------------------------------------------------------------------
  // Appending bytes changes nothing, unless the file ended too early.

  predicate RanOut<T>(r: Read<T>) { r.Err? && r.error.UnexpectedEof? }

  /** The outcome on the longer file is the same, unless the shorter one ended too early. */
  predicate Stable<T(==)>(short: Read<T>, long: Read<T>) { RanOut(short) || short == long }

  lemma TakeStable(d: Bytes, more: Bytes, pos: nat, n: nat, field: Field)
    ensures Stable(Take(d, pos, n, field), Take(d + more, pos, n, field))
  {
    if pos + n <= |d| { assert (d + more)[pos..pos + n] == d[pos..pos + n]; }
  }

  lemma UnsignedStable(d: Bytes, more: Bytes, pos: nat, width: nat, field: Field)
    ensures Stable(Unsigned(d, pos, width, field), Unsigned(d + more, pos, width, field))
  {
    TakeStable(d, more, pos, width, field);
  }

  lemma SignedStable(d: Bytes, more: Bytes, pos: nat, field: Field)
    ensures Stable(Signed(d, pos, field), Signed(d + more, pos, field))
  {
    UnsignedStable(d, more, pos, 4, field);
  }

  lemma FiniteStable(nums: Numbers, d: Bytes, more: Bytes, pos: nat, field: Field)
    ensures Stable(Finite(nums, d, pos, field), Finite(nums, d + more, pos, field))
  {
    UnsignedStable(d, more, pos, 4, field);
  }

  lemma {:induction false} NulStays(d: Bytes, more: Bytes, pos: nat)
    requires pos <= |d| && NulAt(d, pos) < |d|
    ensures NulAt(d + more, pos) == NulAt(d, pos)
    decreases |d| - pos
  {
    if d[pos] != 0 { NulStays(d, more, pos + 1); }
  }

  lemma CStringStable(d: Bytes, more: Bytes, pos: nat, field: Field)
    ensures Stable(CString(d, pos, field), CString(d + more, pos, field))
  {
    if pos <= |d| && NulAt(d, pos) < |d| {
      NulStays(d, more, pos);
      var at := NulAt(d, pos);
      assert (d + more)[pos..at] == d[pos..at];
    }
  }

  lemma FixedNameStable(d: Bytes, more: Bytes, pos: nat, n: nat, field: Field)
    ensures Stable(FixedName(d, pos, n, field), FixedName(d + more, pos, n, field))
  {
    TakeStable(d, more, pos, n, field);
  }

  lemma FiniteVec3Stable(nums: Numbers, d: Bytes, more: Bytes, pos: nat, fx: Field, fy: Field, fz: Field)
    ensures Stable(FiniteVec3(nums, d, pos, fx, fy, fz), FiniteVec3(nums, d + more, pos, fx, fy, fz))
  {
    FiniteStable(nums, d, more, pos, fx);
    FiniteStable(nums, d, more, pos + 4, fy);
    FiniteStable(nums, d, more, pos + 8, fz);
  }

  lemma QuantisedVec3Stable(d: Bytes, more: Bytes, pos: nat, fx: Field, fy: Field, fz: Field, lower: real, upper: real)
    ensures Stable(QuantisedVec3(d, pos, fx, fy, fz, lower, upper),
                   QuantisedVec3(d + more, pos, fx, fy, fz, lower, upper))
  {
    UnsignedStable(d, more, pos, 2, fx);
    UnsignedStable(d, more, pos + 2, 2, fy);
    UnsignedStable(d, more, pos + 4, 2, fz);
  }

  lemma RotationKeyStable(nums: Numbers, d: Bytes, more: Bytes, pos: nat, h: Header)
    ensures Stable(OneRotationKey(nums, d, pos, h), OneRotationKey(nums, d + more, pos, h))
  {
    if h.legacy {
      FiniteStable(nums, d, more, pos, RotTime);
      FiniteVec3Stable(nums, d, more, pos + 4, RotX, RotY, RotZ);
    } else {
      UnsignedStable(d, more, pos, 2, RotTime);
      QuantisedVec3Stable(d, more, pos + 2, RotX, RotY, RotZ, -1.0, 1.0);
    }
  }

  lemma PositionKeyStable(nums: Numbers, d: Bytes, more: Bytes, pos: nat, h: Header)
    ensures Stable(OnePositionKey(nums, d, pos, h), OnePositionKey(nums, d + more, pos, h))
  {
    if h.legacy {
      FiniteStable(nums, d, more, pos, PosTime);
      FiniteVec3Stable(nums, d, more, pos + 4, PosX, PosY, PosZ);
    } else {
      UnsignedStable(d, more, pos, 2, PosTime);
      QuantisedVec3Stable(d, more, pos + 2, PosX, PosY, PosZ, -MAX_PELVIS_OFFSET, MAX_PELVIS_OFFSET);
    }
  }

  lemma {:induction false} RotationKeysStable(nums: Numbers, d: Bytes, more: Bytes, pos: nat, h: Header, n: nat,
                                              keys: seq<RotationKey>)
    ensures Stable(RotationKeys(nums, d, pos, h, n, keys), RotationKeys(nums, d + more, pos, h, n, keys))
    decreases n
  {
    if n > 0 {
      RotationKeyStable(nums, d, more, pos, h);
      var key := OneRotationKey(nums, d, pos, h);
      if key.Ok? { RotationKeysStable(nums, d, more, key.value.1, h, n - 1, keys + [key.value.0]); }
    }
  }

  lemma {:induction false} PositionKeysStable(nums: Numbers, d: Bytes, more: Bytes, pos: nat, h: Header, n: nat,
                                              keys: seq<PositionKey>)
    ensures Stable(PositionKeys(nums, d, pos, h, n, keys), PositionKeys(nums, d + more, pos, h, n, keys))
    decreases n
  {
    if n > 0 {
      PositionKeyStable(nums, d, more, pos, h);
      var key := OnePositionKey(nums, d, pos, h);
      if key.Ok? { PositionKeysStable(nums, d, more, key.value.1, h, n - 1, keys + [key.value.0]); }
    }
  }

  lemma TracksStable(nums: Numbers, d: Bytes, more: Bytes, pos: nat, h: Header)
    ensures Stable(RotationTrack(nums, d, pos, h), RotationTrack(nums, d + more, pos, h))
    ensures Stable(PositionTrack(nums, d, pos, h), PositionTrack(nums, d + more, pos, h))
  {
    SignedStable(d, more, pos, NumRotKeys);
    SignedStable(d, more, pos, NumPosKeys);
    var r, p := KeyCount(d, pos, NumRotKeys), KeyCount(d, pos, NumPosKeys);
    if r.Ok? { RotationKeysStable(nums, d, more, r.value.1, h, r.value.0, []); }
    if p.Ok? { PositionKeysStable(nums, d, more, p.value.1, h, p.value.0, []); }
  }

  lemma JointStable(nums: Numbers, d: Bytes, more: Bytes, pos: nat, h: Header)
    ensures Stable(OneJoint(nums, d, pos, h), OneJoint(nums, d + more, pos, h))
  {
    CStringStable(d, more, pos, JointName);
    var name := CString(d, pos, JointName);
    if name.Ok? {
      SignedStable(d, more, name.value.1, JointPriorityField);
      var priority := JointPriority(d, name.value.1);
      if priority.Ok? {
        TracksStable(nums, d, more, priority.value.1, h);
        var rotations := RotationTrack(nums, d, priority.value.1, h);
        if rotations.Ok? { TracksStable(nums, d, more, rotations.value.1, h); }
      }
    }
  }

  /** What the first of several joints makes of reading them: it fails them all, or the rest follow it. */
  datatype Step<T> = Fails(error: AnimError) | Goes(item: T, next: nat)

  lemma JointsStep(nums: Numbers, d: Bytes, pos: nat, h: Header, n: nat, joints: seq<Joint>) returns (step: Step<Joint>)
    requires n > 0
    ensures step == match OneJoint(nums, d, pos, h) case Err(e) => Fails(e) case Ok(read) => Goes(read.0, read.1)
    ensures Joints(nums, d, pos, h, n, joints)
         == match step
            case Fails(e) => Err(e)
            case Goes(joint, next) => Joints(nums, d, next, h, n - 1, joints + [joint])
  {
    step := match OneJoint(nums, d, pos, h) case Err(e) => Fails(e) case Ok(read) => Goes(read.0, read.1);
    assert Joints(nums, d, pos, h, n, joints) == SomeJoints(nums, d, pos, h, n - 1, joints);
    assert SomeJoints(nums, d, pos, h, n - 1, joints) == JointsAfter(nums, d, pos, h, n - 1, joints);
  }

  lemma JointsStepStable(nums: Numbers, d: Bytes, more: Bytes, pos: nat, h: Header, n: nat, joints: seq<Joint>)
    returns (step: Step<Joint>)
    requires n > 0
    ensures Joints(nums, d, pos, h, n, joints)
         == match step
            case Fails(e) => Err(e)
            case Goes(joint, next) => Joints(nums, d, next, h, n - 1, joints + [joint])
    ensures (step.Fails? && step.error.UnexpectedEof?) ||
            Joints(nums, d + more, pos, h, n, joints)
         == match step
            case Fails(e) => Err(e)
            case Goes(joint, next) => Joints(nums, d + more, next, h, n - 1, joints + [joint])
  {
    JointStable(nums, d, more, pos, h);
    step := JointsStep(nums, d, pos, h, n, joints);
    var longer := JointsStep(nums, d + more, pos, h, n, joints);
  }

  lemma {:induction false} JointsStable(nums: Numbers, d: Bytes, more: Bytes, pos: nat, h: Header, n: nat,
                                        joints: seq<Joint>)
    ensures Stable(Joints(nums, d, pos, h, n, joints), Joints(nums, d + more, pos, h, n, joints))
    decreases n
  {
    if n > 0 {
      var step := JointsStepStable(nums, d, more, pos, h, n, joints);
      if step.Goes? { JointsStable(nums, d, more, step.next, h, n - 1, joints + [step.item]); }
    }
  }

  lemma AnchoredStable(nums: Numbers, d: Bytes, more: Bytes, pos: nat, volume: Field, offset: Field)
    ensures Stable(Anchored(nums, d, pos, volume, offset), Anchored(nums, d + more, pos, volume, offset))
  {
    FixedNameStable(d, more, pos, VOLUME_NAME_LEN, volume);
    FiniteVec3Stable(nums, d, more, pos + 16, offset, offset, offset);
  }

  lemma AnchoredLength(nums: Numbers, d: Bytes, pos: nat, volume: Field, offset: Field)
    ensures var r := Anchored(nums, d, pos, volume, offset); r.Ok? ==> r.value.1 == pos + 28
  {
  }

  lemma EndsStable(nums: Numbers, d: Bytes, more: Bytes, pos: nat)
    ensures Stable(ReadEnds(nums, d, pos), ReadEnds(nums, d + more, pos))
  {
    AnchoredStable(nums, d, more, pos, SourceVolume, SourceOffset);
    AnchoredLength(nums, d, pos, SourceVolume, SourceOffset);
    AnchoredStable(nums, d, more, pos + 28, TargetVolume, TargetOffset);
    AnchoredLength(nums, d, pos + 28, TargetVolume, TargetOffset);
    FiniteVec3Stable(nums, d, more, pos + 56, TargetDir, TargetDir, TargetDir);
  }

  lemma EasingStable(nums: Numbers, d: Bytes, more: Bytes, pos: nat)
    ensures Stable(Easing(nums, d, pos), Easing(nums, d + more, pos))
  {
    FiniteStable(nums, d, more, pos, EaseInStart);
    FiniteStable(nums, d, more, pos + 4, EaseInStop);
    FiniteStable(nums, d, more, pos + 8, EaseOutStart);
    FiniteStable(nums, d, more, pos + 12, EaseOutStop);
  }

  lemma ConstraintStable(nums: Numbers, d: Bytes, more: Bytes, pos: nat, joints: nat)
    ensures Stable(OneConstraint(nums, d, pos, joints), OneConstraint(nums, d + more, pos, joints))
  {
    UnsignedStable(d, more, pos, 1, ChainLength);
    UnsignedStable(d, more, pos + 1, 1, ConstraintTypeField);
    EndsStable(nums, d, more, pos + 2);
    var ends := ReadEnds(nums, d, pos + 2);
    if ends.Ok? { EasingStable(nums, d, more, ends.value.1); }
  }

  lemma ConstraintsStep(nums: Numbers, d: Bytes, pos: nat, joints: nat, n: nat, list: seq<Constraint>)
    returns (step: Step<Constraint>)
    requires n > 0
    ensures step == match OneConstraint(nums, d, pos, joints)
            case Err(e) => Fails(e)
            case Ok(read) => Goes(read.0, read.1)
    ensures ConstraintList(nums, d, pos, joints, n, list)
         == match step
            case Fails(e) => Err(e)
            case Goes(c, next) => ConstraintList(nums, d, next, joints, n - 1, list + [c])
  {
    step := match OneConstraint(nums, d, pos, joints) case Err(e) => Fails(e) case Ok(read) => Goes(read.0, read.1);
    assert ConstraintList(nums, d, pos, joints, n, list) == SomeConstraints(nums, d, pos, joints, n - 1, list);
    assert SomeConstraints(nums, d, pos, joints, n - 1, list) == ConstraintsAfter(nums, d, pos, joints, n - 1, list);
  }

  lemma ConstraintsStepStable(nums: Numbers, d: Bytes, more: Bytes, pos: nat, joints: nat, n: nat,
                              list: seq<Constraint>)
    returns (step: Step<Constraint>)
    requires n > 0
    ensures ConstraintList(nums, d, pos, joints, n, list)
         == match step
            case Fails(e) => Err(e)
            case Goes(c, next) => ConstraintList(nums, d, next, joints, n - 1, list + [c])
    ensures (step.Fails? && step.error.UnexpectedEof?) ||
            ConstraintList(nums, d + more, pos, joints, n, list)
         == match step
            case Fails(e) => Err(e)
            case Goes(c, next) => ConstraintList(nums, d + more, next, joints, n - 1, list + [c])
  {
    ConstraintStable(nums, d, more, pos, joints);
    step := ConstraintsStep(nums, d, pos, joints, n, list);
    var longer := ConstraintsStep(nums, d + more, pos, joints, n, list);
  }

  lemma {:induction false} ConstraintListStable(nums: Numbers, d: Bytes, more: Bytes, pos: nat, joints: nat, n: nat,
                                                list: seq<Constraint>)
    ensures Stable(ConstraintList(nums, d, pos, joints, n, list), ConstraintList(nums, d + more, pos, joints, n, list))
    decreases n
  {
    if n > 0 {
      var step := ConstraintsStepStable(nums, d, more, pos, joints, n, list);
      if step.Goes? { ConstraintListStable(nums, d, more, step.next, joints, n - 1, list + [step.item]); }
    }
  }

  lemma ConstraintsStable(nums: Numbers, d: Bytes, more: Bytes, pos: nat, joints: nat)
    ensures Stable(Constraints(nums, d, pos, joints), Constraints(nums, d + more, pos, joints))
  {
    SignedStable(d, more, pos, NumConstraints);
    var n := Signed(d, pos, NumConstraints);
    if n.Ok? && 0 <= n.value.0 <= MAX_CONSTRAINTS {
      ConstraintListStable(nums, d, more, n.value.1, joints, n.value.0, []);
    }
  }

  lemma HeaderStable(nums: Numbers, d: Bytes, more: Bytes, pos: nat)
    ensures Stable(ReadHeader(nums, d, pos), ReadHeader(nums, d + more, pos))
  {
    UnsignedStable(d, more, pos, 2, Version);
    UnsignedStable(d, more, pos + 2, 2, SubVersion);
    SignedStable(d, more, pos + 4, BasePriority);
    UnsignedStable(d, more, pos + 8, 4, Duration);
    CStringStable(d, more, pos + 12, EmoteName);
  }

  lemma TimingStable(nums: Numbers, d: Bytes, more: Bytes, pos: nat)
    ensures Stable(ReadTiming(nums, d, pos), ReadTiming(nums, d + more, pos))
  {
    FiniteStable(nums, d, more, pos, LoopIn);
    FiniteStable(nums, d, more, pos + 4, LoopOut);
    SignedStable(d, more, pos + 8, Loop);
    FiniteStable(nums, d, more, pos + 12, EaseIn);
    FiniteStable(nums, d, more, pos + 16, EaseOut);
    UnsignedStable(d, more, pos + 20, 4, HandPoseField);
  }

  lemma BodyStable(nums: Numbers, d: Bytes, more: Bytes, pos: nat, h: Header)
    ensures Stable(ReadBody(nums, d, pos, h), ReadBody(nums, d + more, pos, h))
  {
    UnsignedStable(d, more, pos, 4, NumJoints);
    var n := JointCount(d, pos);
    if n.Ok? {
      JointsStable(nums, d, more, n.value.1, h, n.value.0, []);
      var joints := Joints(nums, d, n.value.1, h, n.value.0, []);
      if joints.Ok? { ConstraintsStable(nums, d, more, joints.value.1, n.value.0); }
    }
  }

  /** Whatever follows a file, it decodes or is refused as it is, unless it ended too early. */
  lemma MotionIgnoresWhatFollows(nums: Numbers, d: Bytes, more: Bytes)
    ensures Stable(ReadMotion(nums, d), ReadMotion(nums, d + more))
  {
    HeaderStable(nums, d, more, 0);
    var header := ReadHeader(nums, d, 0);
    if header.Ok? {
      TimingStable(nums, d, more, header.value.1);
      var timing := ReadTiming(nums, d, header.value.1);
      if timing.Ok? { BodyStable(nums, d, more, timing.value.1, header.value.0); }
    }
  }

  // ---------------------------------------------------------------------------------
  // What an accepted motion is known to be.

  predicate InRange(v: Vec3) {
    && -MAX_PELVIS_OFFSET <= v.x <= MAX_PELVIS_OFFSET && -MAX_PELVIS_OFFSET <= v.y <= MAX_PELVIS_OFFSET
    && -MAX_PELVIS_OFFSET <= v.z <= MAX_PELVIS_OFFSET
  }

  predicate InUnitCube(v: Vec3) { -1.0 <= v.x <= 1.0 && -1.0 <= v.y <= 1.0 && -1.0 <= v.z <= 1.0 }

  ghost predicate IsEuler(nums: Numbers, q: Quat) { exists v :: q == nums.euler(v) }

  predicate SixteenBit(v: (nat, nat, nat)) { v.0 < 0x1_0000 && v.1 < 0x1_0000 && v.2 < 0x1_0000 }

  /** Completed from three stored numbers, each spread over the range from minus one to one. */
  ghost predicate IsCompleted(nums: Numbers, q: Quat) {
    exists v: (nat, nat, nat) ::
      SixteenBit(v) && InUnitCube(Spread(v, -1.0, 1.0)) && q == nums.complete(Spread(v, -1.0, 1.0))
  }

  /** Old files spell rotations as angles; new ones as three components, and keep their times within the motion. */
  ghost predicate RotationFits(nums: Numbers, h: Header, key: RotationKey) {
    if h.legacy then IsEuler(nums, key.rotation) else 0.0 <= key.time <= h.duration && IsCompleted(nums, key.rotation)
  }

  ghost predicate RotationsFit(nums: Numbers, h: Header, keys: seq<RotationKey>) {
    forall k | 0 <= k < |keys| :: RotationFits(nums, h, keys[k])
  }

  ghost predicate PositionsFit(keys: seq<PositionKey>) { forall k | 0 <= k < |keys| :: InRange(keys[k].position) }

  ghost predicate JointFits(nums: Numbers, h: Header, j: Joint) {
    j.priority >= USE_MOTION && RotationsFit(nums, h, j.rotations) && PositionsFit(j.positions)
  }

  lemma WidenPelvis(value: nat)
    requires value < 0x1_0000
    ensures -MAX_PELVIS_OFFSET <= Widen(value, -MAX_PELVIS_OFFSET, MAX_PELVIS_OFFSET) <= MAX_PELVIS_OFFSET
  {
  }

  lemma UnsignedFits(d: Bytes, pos: nat, width: nat, field: Field)
    ensures var r := Unsigned(d, pos, width, field); r.Ok? ==>
              r.value.0 < Pow256(width) && r.value.1 == pos + width <= |d|
  {
    if pos + width <= |d| { FromLittleEndianBound(d[pos..pos + width]); }
  }

  lemma SixteenBits()
    ensures Pow256(2) == 0x1_0000
  {
    assert Pow256(1) == 256;
  }

  lemma PositionKeyFits(nums: Numbers, d: Bytes, pos: nat, h: Header)
    ensures var r := OnePositionKey(nums, d, pos, h); r.Ok? ==> InRange(r.value.0.position)
  {
    if !h.legacy {
      SixteenBits();
      UnsignedFits(d, pos + 2, 2, PosX);
      UnsignedFits(d, pos + 4, 2, PosY);
      UnsignedFits(d, pos + 6, 2, PosZ);
      var x, y, z := Unsigned(d, pos + 2, 2, PosX), Unsigned(d, pos + 4, 2, PosY), Unsigned(d, pos + 6, 2, PosZ);
      if x.Ok? { WidenPelvis(x.value.0); }
      if y.Ok? { WidenPelvis(y.value.0); }
      if z.Ok? { WidenPelvis(z.value.0); }
    }
  }

  lemma {:induction false} PositionKeysFit(nums: Numbers, d: Bytes, pos: nat, h: Header, n: nat, keys: seq<PositionKey>)
    requires PositionsFit(keys)
    ensures var r := PositionKeys(nums, d, pos, h, n, keys); r.Ok? ==> PositionsFit(r.value.0)
    decreases n
  {
    if n > 0 {
      PositionKeyFits(nums, d, pos, h);
      var key := OnePositionKey(nums, d, pos, h);
      if key.Ok? { PositionKeysFit(nums, d, key.value.1, h, n - 1, keys + [key.value.0]); }
    }
  }

  /** Stored components lie within one, so that three of them may be too long for a rotation. */
  lemma SpreadUnit(v: (nat, nat, nat))
    requires SixteenBit(v)
    ensures InUnitCube(Spread(v, -1.0, 1.0))
  {
    WidenUnit(v.0);
    WidenUnit(v.1);
    WidenUnit(v.2);
  }

  lemma WidenUnit(value: nat)
    requires value < 0x1_0000
    ensures -1.0 <= Widen(value, -1.0, 1.0) <= 1.0
  {
  }

  lemma ThreeU16Fit(d: Bytes, pos: nat)
    ensures var v := ThreeU16(d, pos, RotX, RotY, RotZ); v.Ok? ==> SixteenBit(v.value.0)
  {
    SixteenBits();
    UnsignedFits(d, pos, 2, RotX);
    UnsignedFits(d, pos + 2, 2, RotY);
    UnsignedFits(d, pos + 4, 2, RotZ);
  }

  lemma RotationKeyFits(nums: Numbers, d: Bytes, pos: nat, h: Header)
    ensures var r := OneRotationKey(nums, d, pos, h); r.Ok? ==> RotationFits(nums, h, r.value.0)
  {
    if h.legacy {
      var time := Finite(nums, d, pos, RotTime);
      if time.Ok? {
        var angles := FiniteVec3(nums, d, time.value.1, RotX, RotY, RotZ);
        if angles.Ok? { assert IsEuler(nums, nums.euler(angles.value.0)); }
      }
    } else {
      var u := Unsigned(d, pos, 2, RotTime);
      if u.Ok? {
        ThreeU16Fit(d, u.value.1);
        var v := ThreeU16(d, u.value.1, RotX, RotY, RotZ);
        if v.Ok? {
          SpreadUnit(v.value.0);
          assert IsCompleted(nums, nums.complete(Spread(v.value.0, -1.0, 1.0)));
        }
      }
    }
  }

  lemma {:induction false} RotationKeysFit(nums: Numbers, d: Bytes, pos: nat, h: Header, n: nat, keys: seq<RotationKey>)
    requires RotationsFit(nums, h, keys)
    ensures var r := RotationKeys(nums, d, pos, h, n, keys); r.Ok? ==> RotationsFit(nums, h, r.value.0)
    decreases n
  {
    if n > 0 {
      RotationKeyFits(nums, d, pos, h);
      var key := OneRotationKey(nums, d, pos, h);
      if key.Ok? { RotationKeysFit(nums, d, key.value.1, h, n - 1, keys + [key.value.0]); }
    }
  }

  lemma OneJointFits(nums: Numbers, d: Bytes, pos: nat, h: Header)
    ensures var r := OneJoint(nums, d, pos, h); r.Ok? ==> JointFits(nums, h, r.value.0)
  {
    var name := CString(d, pos, JointName);
    if name.Ok? {
      var priority := JointPriority(d, name.value.1);
      if priority.Ok? {
        var n := KeyCount(d, priority.value.1, NumRotKeys);
        if n.Ok? {
          RotationKeysFit(nums, d, n.value.1, h, n.value.0, []);
          var rotations := RotationTrack(nums, d, priority.value.1, h);
          if rotations.Ok? {
            var m := KeyCount(d, rotations.value.1, NumPosKeys);
            if m.Ok? { PositionKeysFit(nums, d, m.value.1, h, m.value.0, []); }
          }
        }
      }
    }
  }

  ghost predicate JointsFit(nums: Numbers, h: Header, joints: seq<Joint>)
  {
    forall k | 0 <= k < |joints| :: JointFits(nums, h, joints[k])
  }

  lemma OneMoreJointFits(nums: Numbers, h: Header, joints: seq<Joint>, j: Joint)
    requires JointsFit(nums, h, joints) && JointFits(nums, h, j)
    ensures JointsFit(nums, h, joints + [j])
  {
    forall k | 0 <= k < |joints| + 1 ensures JointFits(nums, h, (joints + [j])[k]) {
      if k < |joints| { assert (joints + [j])[k] == joints[k]; }
    }
  }

  lemma JointsStepFits(nums: Numbers, d: Bytes, pos: nat, h: Header, n: nat, joints: seq<Joint>)
    returns (step: Step<Joint>)
    requires n > 0 && JointsFit(nums, h, joints)
    ensures Joints(nums, d, pos, h, n, joints)
         == match step
            case Fails(e) => Err(e)
            case Goes(joint, next) => Joints(nums, d, next, h, n - 1, joints + [joint])
    ensures step.Goes? ==> JointsFit(nums, h, joints + [step.item])
  {
    OneJointFits(nums, d, pos, h);
    step := JointsStep(nums, d, pos, h, n, joints);
    if step.Goes? { OneMoreJointFits(nums, h, joints, step.item); }
  }

  lemma {:induction false} AllJointsFit(nums: Numbers, d: Bytes, pos: nat, h: Header, n: nat, joints: seq<Joint>,
                                        r: Read<seq<Joint>>)
    requires JointsFit(nums, h, joints) && r == Joints(nums, d, pos, h, n, joints)
    ensures r.Ok? ==> JointsFit(nums, h, r.value.0) && |r.value.0| == |joints| + n
    decreases n
  {
    if n > 0 {
      var step := JointsStepFits(nums, d, pos, h, n, joints);
      if step.Goes? { AllJointsFit(nums, d, step.next, h, n - 1, joints + [step.item], r); }
    }
  }

  ghost predicate ChainsFit(list: seq<Constraint>, joints: nat)
  {
    forall k | 0 <= k < |list| :: list[k].chainLength <= joints
  }

  lemma ConstraintsStepFits(nums: Numbers, d: Bytes, pos: nat, joints: nat, n: nat, list: seq<Constraint>)
    returns (step: Step<Constraint>)
    requires n > 0 && ChainsFit(list, joints)
    ensures ConstraintList(nums, d, pos, joints, n, list)
         == match step
            case Fails(e) => Err(e)
            case Goes(c, next) => ConstraintList(nums, d, next, joints, n - 1, list + [c])
    ensures step.Goes? ==> ChainsFit(list + [step.item], joints)
  {
    ChainFits(nums, d, pos, joints);
    step := ConstraintsStep(nums, d, pos, joints, n, list);
  }

  lemma {:induction false} ConstraintsFit(nums: Numbers, d: Bytes, pos: nat, joints: nat, n: nat, list: seq<Constraint>,
                                          r: Read<seq<Constraint>>)
    requires ChainsFit(list, joints) && r == ConstraintList(nums, d, pos, joints, n, list)
    ensures r.Ok? ==> ChainsFit(r.value.0, joints) && |r.value.0| == |list| + n
    decreases n
  {
    if n > 0 {
      var step := ConstraintsStepFits(nums, d, pos, joints, n, list);
      if step.Goes? { ConstraintsFit(nums, d, step.next, joints, n - 1, list + [step.item], r); }
    }
  }

  lemma ChainFits(nums: Numbers, d: Bytes, pos: nat, joints: nat)
    ensures var r := OneConstraint(nums, d, pos, joints); r.Ok? ==> r.value.0.chainLength <= joints
  {
  }

  /** What every accepted file promises. */
  ghost predicate WellFormed(nums: Numbers, m: Motion) {
    && 1 <= |m.joints| <= MAX_ANIMATED_JOINTS && JointsFit(nums, m.header, m.joints)
    && |m.constraints| <= MAX_CONSTRAINTS && ChainsFit(m.constraints, |m.joints|)
    && m.header.duration <= MAX_ANIM_DURATION && USE_MOTION <= m.header.basePriority <= ADDITIVE_CLAMPED
    && m.timing.handPose <= NUM_HAND_POSES
  }

  lemma BodyFits(nums: Numbers, d: Bytes, pos: nat, h: Header)
    ensures var r := ReadBody(nums, d, pos, h);
            r.Ok? ==> && 1 <= |r.value.0.0| <= MAX_ANIMATED_JOINTS && JointsFit(nums, h, r.value.0.0)
                      && |r.value.0.1| <= MAX_CONSTRAINTS && ChainsFit(r.value.0.1, |r.value.0.0|)
  {
    var n := JointCount(d, pos);
    if n.Ok? {
      var joints := Joints(nums, d, n.value.1, h, n.value.0, []);
      AllJointsFit(nums, d, n.value.1, h, n.value.0, [], joints);
      if joints.Ok? {
        var count := Signed(d, joints.value.1, NumConstraints);
        if count.Ok? && 0 <= count.value.0 <= MAX_CONSTRAINTS {
          var list := ConstraintList(nums, d, count.value.1, n.value.0, count.value.0, []);
          ConstraintsFit(nums, d, count.value.1, n.value.0, count.value.0, [], list);
        }
      }
    }
  }

  lemma HeaderFits(nums: Numbers, d: Bytes, pos: nat)
    ensures var r := ReadHeader(nums, d, pos);
            r.Ok? ==>
              r.value.0.duration <= MAX_ANIM_DURATION && USE_MOTION <= r.value.0.basePriority <= ADDITIVE_CLAMPED
  {
  }

  /** Every accepted motion is within its limits. */
  lemma AcceptedIsWellFormed(nums: Numbers, d: Bytes)
    ensures var r := ReadMotion(nums, d); r.Ok? ==> WellFormed(nums, r.value.0)
  {
    HeaderFits(nums, d, 0);
    var header := ReadHeader(nums, d, 0);
    if header.Ok? {
      var timing := ReadTiming(nums, d, header.value.1);
      if timing.Ok? { BodyFits(nums, d, timing.value.1, header.value.0); }
    }
  }
}

/** The cursor that decodes keyframe-motion files, proved to read what the format says. */
module MotionCursor {
  import opened Wrappers
  import W = WireFields
  import opened MotionFormat
  import L = MotionLayout
  import opened Vectors

  type Outcome<T> = Result<T, AnimError>

  /** A method's outcome and where it left the cursor agree with what the format reads. */
  predicate Agrees<T(==)>(spec: Read<T>, r: Outcome<T>, pos: nat) {
    match spec
    case Ok(read) => r.Ok? && r.value == read.0 && pos == read.1
    case Err(e) => r == Err(e)
  }

  class Cursor {
    const data: Bytes
    const nums: Numbers
    var pos: nat

    predicate Valid()
      reads this`pos
    {
      pos <= |data|
    }

    constructor (nums: Numbers, data: Bytes)
      ensures Valid() && this.nums == nums && this.data == data && pos == 0
    {
      this.nums := nums;
      this.data := data;
      pos := 0;
    }

    method TakeBytes(n: nat, field: Field) returns (r: Outcome<Bytes>)
      requires Valid()
      modifies this`pos
      ensures Valid() && Agrees(Take(data, old(pos), n, field), r, pos)
    {
      if pos + n > |data| {
        return Err(AnimError.UnexpectedEof(field));
      }
      var bytes := data[pos..pos + n];
      pos := pos + n;
      return Ok(bytes);
    }

    method ReadUnsigned(width: nat, field: Field) returns (r: Outcome<nat>)
      requires Valid()
      modifies this`pos
      ensures Valid() && Agrees(Unsigned(data, old(pos), width, field), r, pos)
    {
      var bytes := TakeBytes(width, field);
      r := match bytes case Err(e) => Err(e) case Ok(b) => Ok(W.FromLittleEndian(b));
    }

    method ReadSigned(field: Field) returns (r: Outcome<int>)
      requires Valid()
      modifies this`pos
      ensures Valid() && Agrees(Signed(data, old(pos), field), r, pos)
    {
      var u := ReadUnsigned(4, field);
      r := match u case Err(e) => Err(e) case Ok(n) => Ok(W.FromUnsigned(n, 4));
    }

    method ReadFinite(field: Field) returns (r: Outcome<real>)
      requires Valid()
      modifies this`pos
      ensures Valid() && Agrees(Finite(nums, data, old(pos), field), r, pos)
    {
      var u := ReadUnsigned(4, field);
      if u.Err? {
        return Err(u.error);
      }
      var x := nums.finite(u.value);
      return if x.None? then Err(NonFinite(field)) else Ok(x.value);
    }

    /** Reads up to a zero byte and over it. */
    method ReadCString(field: Field) returns (r: Outcome<Bytes>)
      requires Valid()
      modifies this`pos
      ensures Valid() && Agrees(CString(data, old(pos), field), r, pos)
    {
      var nul := pos;
      while nul < |data| && data[nul] != 0
        invariant pos <= nul <= |data| && NulAt(data, nul) == NulAt(data, pos)
      {
        nul := nul + 1;
      }
      if nul == |data| {
        return Err(AnimError.UnexpectedEof(field));
      }
      var value := data[pos..nul];
      pos := nul + 1;
      return Ok(value);
    }

    method ReadFiniteVec3(fx: Field, fy: Field, fz: Field) returns (r: Outcome<Vec3>)
      requires Valid()
      modifies this`pos
      ensures Valid() && Agrees(FiniteVec3(nums, data, old(pos), fx, fy, fz), r, pos)
    {
      var x := ReadFinite(fx);
      if x.Err? { return Err(x.error); }
      var y := ReadFinite(fy);
      if y.Err? { return Err(y.error); }
      var z := ReadFinite(fz);
      if z.Err? { return Err(z.error); }
      return Ok(Vec3(x.value, y.value, z.value));
    }

    method ReadThreeU16(fx: Field, fy: Field, fz: Field) returns (r: Outcome<(nat, nat, nat)>)
      requires Valid()
      modifies this`pos
      ensures Valid() && Agrees(ThreeU16(data, old(pos), fx, fy, fz), r, pos)
    {
      var x := ReadUnsigned(2, fx);
      if x.Err? { return Err(x.error); }
      var y := ReadUnsigned(2, fy);
      if y.Err? { return Err(y.error); }
      var z := ReadUnsigned(2, fz);
      if z.Err? { return Err(z.error); }
      return Ok((x.value, y.value, z.value));
    }

    method ReadQuantisedVec3(fx: Field, fy: Field, fz: Field, lower: real, upper: real) returns (r: Outcome<Vec3>)
      requires Valid()
      modifies this`pos
      ensures Valid() && Agrees(QuantisedVec3(data, old(pos), fx, fy, fz, lower, upper), r, pos)
    {
      var v := ReadThreeU16(fx, fy, fz);
      if v.Err? { return Err(v.error); }
      return Ok(Spread(v.value, lower, upper));
    }

    method ReadRotationKey(h: Header) returns (r: Outcome<RotationKey>)
      requires Valid()
      modifies this`pos
      ensures Valid() && Agrees(OneRotationKey(nums, data, old(pos), h), r, pos)
    {
      if h.legacy {
        var time := ReadFinite(RotTime);
        if time.Err? { return Err(time.error); }
        var angles := ReadFiniteVec3(RotX, RotY, RotZ);
        if angles.Err? { return Err(angles.error); }
        return Ok(RotationKey(time.value, nums.euler(angles.value)));
      }
      var u := ReadUnsigned(2, RotTime);
      if u.Err? { return Err(u.error); }
      var time := Widen(u.value, 0.0, h.duration);
      if time < 0.0 || time > h.duration {
        return Err(KeyTimeOutOfRange(time, h.duration));
      }
      var v := ReadQuantisedVec3(RotX, RotY, RotZ, -1.0, 1.0);
      if v.Err? { return Err(v.error); }
      return Ok(RotationKey(time, nums.complete(v.value)));
    }

    method ReadPositionKey(h: Header) returns (r: Outcome<PositionKey>)
      requires Valid()
      modifies this`pos
      ensures Valid() && Agrees(OnePositionKey(nums, data, old(pos), h), r, pos)
    {
      if h.legacy {
        var time := ReadFinite(PosTime);
        if time.Err? { return Err(time.error); }
        var v := ReadFiniteVec3(PosX, PosY, PosZ);
        if v.Err? { return Err(v.error); }
        return Ok(PositionKey(time.value, Vec3(Clamped(v.value.x), Clamped(v.value.y), Clamped(v.value.z))));
      }
      var u := ReadUnsigned(2, PosTime);
      if u.Err? { return Err(u.error); }
      var v := ReadQuantisedVec3(PosX, PosY, PosZ, -MAX_PELVIS_OFFSET, MAX_PELVIS_OFFSET);
      if v.Err? { return Err(v.error); }
      return Ok(PositionKey(Widen(u.value, 0.0, h.duration), v.value));
    }

    method ReadRotationTrack(h: Header) returns (r: Outcome<seq<RotationKey>>)
      requires Valid()
      modifies this`pos
      ensures Valid() && Agrees(RotationTrack(nums, data, old(pos), h), r, pos)
    {
      var n := ReadSigned(NumRotKeys);
      if n.Err? { return Err(n.error); }
      if n.value < 0 { return Err(NegativeKeyCount(NumRotKeys)); }
      var keys: seq<RotationKey>, left := [], n.value;
      ghost var all := RotationKeys(nums, data, pos, h, n.value, []);
      while left > 0
        invariant Valid() && left >= 0
        invariant RotationKeys(nums, data, pos, h, left, keys) == all
      {
        RotationKeysNext(nums, data, pos, h, left, keys);
        var key := ReadRotationKey(h);
        if key.Err? { return Err(key.error); }
        keys, left := keys + [key.value], left - 1;
      }
      return Ok(keys);
    }

    method ReadPositionTrack(h: Header) returns (r: Outcome<seq<PositionKey>>)
      requires Valid()
      modifies this`pos
      ensures Valid() && Agrees(PositionTrack(nums, data, old(pos), h), r, pos)
    {
      var n := ReadSigned(NumPosKeys);
      if n.Err? { return Err(n.error); }
      if n.value < 0 { return Err(NegativeKeyCount(NumPosKeys)); }
      var keys: seq<PositionKey>, left := [], n.value;
      ghost var all := PositionKeys(nums, data, pos, h, n.value, []);
      while left > 0
        invariant Valid() && left >= 0
        invariant PositionKeys(nums, data, pos, h, left, keys) == all
      {
        PositionKeysNext(nums, data, pos, h, left, keys);
        var key := ReadPositionKey(h);
        if key.Err? { return Err(key.error); }
        keys, left := keys + [key.value], left - 1;
      }
      return Ok(keys);
    }

    method ReadJoint(h: Header) returns (r: Outcome<Joint>)
      requires Valid()
      modifies this`pos
      ensures Valid() && Agrees(OneJoint(nums, data, old(pos), h), r, pos)
    {
      var name := ReadCString(JointName);
      if name.Err? { return Err(name.error); }
      var priority := ReadSigned(JointPriorityField);
      if priority.Err? { return Err(priority.error); }
      if priority.value < USE_MOTION { return Err(BadJointPriority(priority.value)); }
      var rotations := ReadRotationTrack(h);
      if rotations.Err? { return Err(rotations.error); }
      var positions := ReadPositionTrack(h);
      if positions.Err? { return Err(positions.error); }
      return Ok(Joint(name.value, priority.value, rotations.value, positions.value));
    }

    /** The next of `n` joints. */
    method ReadNextJoint(h: Header, n: nat, ghost joints: seq<Joint>) returns (r: Outcome<Joint>)
      requires Valid() && n > 0
      modifies this`pos
      ensures Valid()
      ensures Joints(nums, data, old(pos), h, n, joints)
           == match r case Err(e) => Err(e) case Ok(joint) => Joints(nums, data, pos, h, n - 1, joints + [joint])
    {
      ghost var step := JointsStep(nums, data, pos, h, n, joints);
      r := ReadJoint(h);
    }

    method ReadJoints(h: Header, n: nat) returns (r: Outcome<seq<Joint>>)
      requires Valid()
      modifies this`pos
      ensures Valid() && Agrees(Joints(nums, data, old(pos), h, n, []), r, pos)
    {
      var joints: seq<Joint>, left := [], n;
      while left > 0
        invariant Valid()
        invariant Joints(nums, data, pos, h, left, joints) == Joints(nums, data, old(pos), h, n, [])
      {
        var joint := ReadNextJoint(h, left, joints);
        if joint.Err? { return Err(joint.error); }
        joints, left := joints + [joint.value], left - 1;
      }
      return Ok(joints);
    }

    method ReadFixedName(n: nat, field: Field) returns (r: Outcome<Bytes>)
      requires Valid()
      modifies this`pos
      ensures Valid() && Agrees(FixedName(data, old(pos), n, field), r, pos)
    {
      var bytes := TakeBytes(n, field);
      if bytes.Err? { return Err(bytes.error); }
      return Ok(bytes.value[..NulAt(bytes.value, 0)]);
    }

    method ReadEndpoints() returns (r: Outcome<Ends>)
      requires Valid()
      modifies this`pos
      ensures Valid() && Agrees(ReadEnds(nums, data, old(pos)), r, pos)
    {
      var source := ReadFixedName(VOLUME_NAME_LEN, SourceVolume);
      if source.Err? { return Err(source.error); }
      var offset := ReadFiniteVec3(SourceOffset, SourceOffset, SourceOffset);
      if offset.Err? { return Err(offset.error); }
      var target := ReadFixedName(VOLUME_NAME_LEN, TargetVolume);
      if target.Err? { return Err(target.error); }
      var targetOffset := ReadFiniteVec3(TargetOffset, TargetOffset, TargetOffset);
      if targetOffset.Err? { return Err(targetOffset.error); }
      var dir := ReadFiniteVec3(TargetDir, TargetDir, TargetDir);
      if dir.Err? { return Err(dir.error); }
      return Ok(Ends(source.value, offset.value, TargetOf(target.value), targetOffset.value, dir.value));
    }

    method ReadEasing() returns (r: Outcome<seq<real>>)
      requires Valid()
      modifies this`pos
      ensures Valid() && Agrees(Easing(nums, data, old(pos)), r, pos)
    {
      var a := ReadFinite(EaseInStart);
      if a.Err? { return Err(a.error); }
      var b := ReadFinite(EaseInStop);
      if b.Err? { return Err(b.error); }
      var c := ReadFinite(EaseOutStart);
      if c.Err? { return Err(c.error); }
      var e := ReadFinite(EaseOutStop);
      if e.Err? { return Err(e.error); }
      return Ok([a.value, b.value, c.value, e.value]);
    }

    method ReadConstraint(joints: nat) returns (r: Outcome<Constraint>)
      requires Valid()
      modifies this`pos
      ensures Valid() && Agrees(OneConstraint(nums, data, old(pos), joints), r, pos)
    {
      var length := ReadUnsigned(1, ChainLength);
      if length.Err? { return Err(length.error); }
      if length.value > joints { return Err(ConstraintChainTooLong(length.value, joints)); }
      var kind := ReadUnsigned(1, ConstraintTypeField);
      if kind.Err? { return Err(kind.error); }
      if kind.value > 1 { return Err(InvalidConstraintType(kind.value)); }
      var ends := ReadEndpoints();
      if ends.Err? { return Err(ends.error); }
      var easing := ReadEasing();
      if easing.Err? { return Err(easing.error); }
      var e := ends.value;
      return Ok(Constraint(length.value, if kind.value == 0 then Point else Plane, e.source, e.sourceOffset, e.target,
                           e.targetOffset, e.targetDir, easing.value));
    }

    method ReadConstraints(joints: nat) returns (r: Outcome<seq<Constraint>>)
      requires Valid()
      modifies this`pos
      ensures Valid() && Agrees(Constraints(nums, data, old(pos), joints), r, pos)
    {
      var n := ReadSigned(NumConstraints);
      if n.Err? { return Err(n.error); }
      if n.value < 0 || n.value > MAX_CONSTRAINTS { return Ok([]); }
      r := ReadConstraintList(joints, n.value);
    }

    /** The next of `n` constraints. */
    method ReadNextConstraint(joints: nat, n: nat, ghost list: seq<Constraint>) returns (r: Outcome<Constraint>)
      requires Valid() && n > 0
      modifies this`pos
      ensures Valid()
      ensures ConstraintList(nums, data, old(pos), joints, n, list)
           == match r case Err(e) => Err(e) case Ok(c) => ConstraintList(nums, data, pos, joints, n - 1, list + [c])
    {
      ghost var step := ConstraintsStep(nums, data, pos, joints, n, list);
      r := ReadConstraint(joints);
    }

    method ReadConstraintList(joints: nat, n: nat) returns (r: Outcome<seq<Constraint>>)
      requires Valid()
      modifies this`pos
      ensures Valid() && Agrees(ConstraintList(nums, data, old(pos), joints, n, []), r, pos)
    {
      var list: seq<Constraint>, left := [], n;
      while left > 0
        invariant Valid()
        invariant ConstraintList(nums, data, pos, joints, left, list)
                  == ConstraintList(nums, data, old(pos), joints, n, [])
      {
        var c := ReadNextConstraint(joints, left, list);
        if c.Err? { return Err(c.error); }
        list, left := list + [c.value], left - 1;
      }
      return Ok(list);
    }

    method ReadFileHeader() returns (r: Outcome<Header>)
      requires Valid()
      modifies this`pos
      ensures Valid() && Agrees(ReadHeader(nums, data, old(pos)), r, pos)
    {
      var version := ReadUnsigned(2, Version);
      if version.Err? { return Err(version.error); }
      var sub := ReadUnsigned(2, SubVersion);
      if sub.Err? { return Err(sub.error); }
      var legacy := version.value == 0 && sub.value == 1;
      if !legacy && !(version.value == 1 && sub.value == 0) {
        return Err(UnsupportedVersion(version.value, sub.value));
      }
      var priority := ReadSigned(BasePriority);
      if priority.Err? { return Err(priority.error); }
      if priority.value < USE_MOTION { return Err(BadBasePriority(priority.value)); }
      var duration := ReadDurationField();
      if duration.Err? { return Err(duration.error); }
      var emote := ReadCString(EmoteName);
      if emote.Err? { return Err(emote.error); }
      return Ok(Header(legacy, if priority.value >= ADDITIVE then ADDITIVE_CLAMPED else priority.value,
                       duration.value, emote.value));
    }

    method ReadDurationField() returns (r: Outcome<real>)
      requires Valid()
      modifies this`pos
      ensures Valid() && Agrees(ReadDuration(nums, data, old(pos)), r, pos)
    {
      var bits := ReadUnsigned(4, Duration);
      if bits.Err? { return Err(bits.error); }
      var duration := nums.finite(bits.value);
      if duration.None? || duration.value > MAX_ANIM_DURATION { return Err(InvalidDuration); }
      return Ok(duration.value);
    }

    method ReadFileTiming() returns (r: Outcome<Timing>)
      requires Valid()
      modifies this`pos
      ensures Valid() && Agrees(ReadTiming(nums, data, old(pos)), r, pos)
    {
      var loopIn := ReadFinite(LoopIn);
      if loopIn.Err? { return Err(loopIn.error); }
      var loopOut := ReadFinite(LoopOut);
      if loopOut.Err? { return Err(loopOut.error); }
      var loops := ReadSigned(Loop);
      if loops.Err? { return Err(loops.error); }
      var easeIn := ReadFinite(EaseIn);
      if easeIn.Err? { return Err(easeIn.error); }
      var easeOut := ReadFinite(EaseOut);
      if easeOut.Err? { return Err(easeOut.error); }
      var pose := ReadUnsigned(4, HandPoseField);
      if pose.Err? { return Err(pose.error); }
      if pose.value > NUM_HAND_POSES { return Err(InvalidHandPose(pose.value)); }
      return Ok(Timing(loopIn.value, loopOut.value, loops.value != 0, easeIn.value, easeOut.value, pose.value));
    }

    method ReadFileBody(h: Header) returns (r: Outcome<(seq<Joint>, seq<Constraint>)>)
      requires Valid()
      modifies this`pos
      ensures Valid() && Agrees(ReadBody(nums, data, old(pos), h), r, pos)
    {
      var n := ReadUnsigned(4, NumJoints);
      if n.Err? { return Err(n.error); }
      if n.value == 0 { return Err(NoJoints); }
      if n.value > MAX_ANIMATED_JOINTS { return Err(TooManyJoints(n.value)); }
      var joints := ReadJoints(h, n.value);
      if joints.Err? { return Err(joints.error); }
      var constraints := ReadConstraints(n.value);
      if constraints.Err? { return Err(constraints.error); }
      return Ok((joints.value, constraints.value));
    }
  }

  lemma FormatPromises(nums: Numbers, data: Bytes, read: Read<Motion>)
    requires read == ReadMotion(nums, data)
    ensures forall m :: (read.Ok? && read.value.0 == m) <==> L.BeginsWith(nums, data, m)
    ensures read.Ok? ==> WellFormed(nums, read.value.0)
    ensures !RanOut(read) ==> forall more :: ReadMotion(nums, data + more) == read
  {
    forall m ensures (read.Ok? && read.value.0 == m) <==> L.BeginsWith(nums, data, m) {
      L.AcceptedExactlyWhen(nums, data, m);
    }
    AcceptedIsWellFormed(nums, data);
    forall more ensures Stable(read, ReadMotion(nums, data + more)) { MotionIgnoresWhatFollows(nums, data, more); }
  }

  /** Decodes a file: it accepts exactly the motion that the file begins with, if it begins with one; what it accepts
      is within its limits, and unless the file ends too early, the outcome is that of the file with any bytes behind
      it. */
  method FromBytes(nums: Numbers, data: Bytes) returns (r: Outcome<Motion>)
    ensures match ReadMotion(nums, data) case Err(e) => r == Err(e) case Ok(read) => r == Ok(read.0)
    ensures forall m :: r == Ok(m) <==> L.BeginsWith(nums, data, m)
    ensures r.Ok? ==> WellFormed(nums, r.value)
    ensures !(r.Err? && r.error.UnexpectedEof?) ==> forall more ::
              ReadMotion(nums, data + more) == ReadMotion(nums, data)
  {
    FormatPromises(nums, data, ReadMotion(nums, data));
    var cursor := new Cursor(nums, data);
    var header := cursor.ReadFileHeader();
    if header.Err? { return Err(header.error); }
    var timing := cursor.ReadFileTiming();
    if timing.Err? { return Err(timing.error); }
    var body := cursor.ReadFileBody(header.value);
    if body.Err? { return Err(body.error); }
    return Ok(Motion(header.value, timing.value, body.value.0, body.value.1));
  }
}

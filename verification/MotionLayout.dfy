/**
 How a keyframe-motion file is laid out: which bytes of it are which field of the motion, told without any reader.  The
 decoder accepts a file as a motion exactly if the file is laid out as that motion.
 */
module MotionLayout {
  import W = WireFields
  import opened MotionFormat
  import opened Vectors
  import opened Wrappers

  // ---------------------------------------------------------------------------------
  // Numbers and texts at a place.

  predicate Holds(d: Bytes, at: nat, n: nat) { at + n <= |d| }

  function U16At(d: Bytes, at: nat): nat
    requires Holds(d, at, 2)
  {
    d[at] as nat + 0x100 * d[at + 1] as nat
  }

  function U32At(d: Bytes, at: nat): nat
    requires Holds(d, at, 4)
  {
    d[at] as nat + 0x100 * d[at + 1] as nat + 0x1_0000 * d[at + 2] as nat + 0x100_0000 * d[at + 3] as nat
  }

  /** In two's complement. */
  function I32At(d: Bytes, at: nat): int
    requires Holds(d, at, 4)
  {
    if U32At(d, at) < 0x8000_0000 then U32At(d, at) else U32At(d, at) - 0x1_0000_0000
  }

  /** The number at `at` is finite and is `x`. */
  predicate IsAt(nums: Numbers, d: Bytes, at: nat, x: real) { Holds(d, at, 4) && nums.finite(U32At(d, at)) == Some(x) }

  /** One axis after the other. */
  predicate VecIsAt(nums: Numbers, d: Bytes, at: nat, v: Vec3) {
    IsAt(nums, d, at, v.x) && IsAt(nums, d, at + 4, v.y) && IsAt(nums, d, at + 8, v.z)
  }

  /** The text at `at` with the zero byte behind it. */
  predicate TextIsAt(d: Bytes, at: nat, text: Bytes) {
    Holds(d, at, |text| + 1) && d[at..at + |text|] == text && d[at + |text|] == 0 && 0 !in text
  }

  /** The text at `at`, filled up with zero bytes to sixteen. */
  predicate NameIsAt(d: Bytes, at: nat, name: Bytes) {
    && Holds(d, at, 16) && |name| <= 16 && d[at..at + |name|] == name && 0 !in name
    && (|name| < 16 ==> d[at + |name|] == 0)
  }

  /** `value` of 65535 parts of the way from `lower` to `upper`; less than one part from zero is zero. */
  function Portion(value: nat, lower: real, upper: real): real {
    var parts := lower * (65535.0 - value as real) + upper * value as real;
    if lower - upper < parts < upper - lower then 0.0 else parts / 65535.0
  }

  /** The three 16-bit numbers at `at`. */
  function ThreeAt(d: Bytes, at: nat): (nat, nat, nat)
    requires Holds(d, at, 6)
  {
    (U16At(d, at), U16At(d, at + 2), U16At(d, at + 4))
  }

  function Portions(v: (nat, nat, nat), lower: real, upper: real): Vec3 {
    Vec3(Portion(v.0, lower, upper), Portion(v.1, lower, upper), Portion(v.2, lower, upper))
  }

  /** `x` is `raw`, or the end of the range that `raw` is beyond. */
  predicate Within(raw: real, x: real) {
    if raw < -5.0 then x == -5.0 else if raw > 5.0 then x == 5.0 else x == raw
  }

  // ---------------------------------------------------------------------------------
  // The parts of a file.

  /** How many bytes a key takes. */
  function KeySize(h: Header): nat { if h.legacy then 16 else 8 }

  /** The time and three angles, or the time as a part of the duration and the three components to complete. */
  predicate RotationLies(nums: Numbers, d: Bytes, h: Header, at: nat, key: RotationKey) {
    if h.legacy then
      && Holds(d, at, 16) && IsAt(nums, d, at, key.time)
      && nums.finite(U32At(d, at + 4)).Some? && nums.finite(U32At(d, at + 8)).Some?
      && nums.finite(U32At(d, at + 12)).Some?
      && key.rotation == nums.euler(Vec3(nums.finite(U32At(d, at + 4)).value, nums.finite(U32At(d, at + 8)).value,
                                         nums.finite(U32At(d, at + 12)).value))
    else
      && Holds(d, at, 8) && key.time == Portion(U16At(d, at), 0.0, h.duration) && 0.0 <= key.time <= h.duration
      && key.rotation == nums.complete(Portions(ThreeAt(d, at + 2), -1.0, 1.0))
  }

  /** The time and the position, axis by axis, kept within five of the origin. */
  predicate PositionLies(nums: Numbers, d: Bytes, h: Header, at: nat, key: PositionKey) {
    if h.legacy then
      && Holds(d, at, 16) && IsAt(nums, d, at, key.time)
      && nums.finite(U32At(d, at + 4)).Some? && Within(nums.finite(U32At(d, at + 4)).value, key.position.x)
      && nums.finite(U32At(d, at + 8)).Some? && Within(nums.finite(U32At(d, at + 8)).value, key.position.y)
      && nums.finite(U32At(d, at + 12)).Some? && Within(nums.finite(U32At(d, at + 12)).value, key.position.z)
    else
      && Holds(d, at, 8) && key.time == Portion(U16At(d, at), 0.0, h.duration)
      && key.position == Portions(ThreeAt(d, at + 2), -5.0, 5.0)
  }

  ghost predicate RotationsLie(nums: Numbers, d: Bytes, h: Header, at: nat, keys: seq<RotationKey>) {
    forall k | 0 <= k < |keys| :: RotationLies(nums, d, h, at + KeySize(h) * k, keys[k])
  }

  ghost predicate PositionsLie(nums: Numbers, d: Bytes, h: Header, at: nat, keys: seq<PositionKey>) {
    forall k | 0 <= k < |keys| :: PositionLies(nums, d, h, at + KeySize(h) * k, keys[k])
  }

  /** Where, in a joint at `at`, its rotation keys begin: behind its name, its priority and their number. */
  function RotationsOf(at: nat, joint: Joint): nat { at + |joint.name| + 9 }

  /** Where its position keys begin: behind the rotation keys and their own number. */
  function PositionsOf(h: Header, at: nat, joint: Joint): nat {
    RotationsOf(at, joint) + KeySize(h) * |joint.rotations| + 4
  }

  /** Where it ends. */
  function JointEnd(h: Header, at: nat, joint: Joint): nat {
    PositionsOf(h, at, joint) + KeySize(h) * |joint.positions|
  }

  /** The number `n` before the keys that begin at `at`. */
  predicate CountedBefore(d: Bytes, at: nat, n: nat) { 4 <= at <= |d| && I32At(d, at - 4) == n }

  ghost predicate JointLies(nums: Numbers, d: Bytes, h: Header, at: nat, joint: Joint) {
    && TextIsAt(d, at, joint.name)
    && Holds(d, at + |joint.name| + 1, 4) && I32At(d, at + |joint.name| + 1) == joint.priority >= -1
    && CountedBefore(d, RotationsOf(at, joint), |joint.rotations|)
    && RotationsLie(nums, d, h, RotationsOf(at, joint), joint.rotations)
    && CountedBefore(d, PositionsOf(h, at, joint), |joint.positions|)
    && PositionsLie(nums, d, h, PositionsOf(h, at, joint), joint.positions)
  }

  /** Where joint `j` begins if the first is at `at`: each begins where the one before it ends. */
  function JointAt(h: Header, at: nat, joints: seq<Joint>, j: nat): nat
    requires j <= |joints|
    decreases j
  {
    if j == 0 then at else JointAt(h, JointEnd(h, at, joints[0]), joints[1..], j - 1)
  }

  ghost predicate JointsLie(nums: Numbers, d: Bytes, h: Header, at: nat, joints: seq<Joint>) {
    forall j | 0 <= j < |joints| :: JointLies(nums, d, h, JointAt(h, at, joints, j), joints[j])
  }

  /** `GROUND` in ASCII. */
  const GROUND_NAME: Bytes := [0x47, 0x52, 0x4F, 0x55, 0x4E, 0x44]

  /** The ground is named so; any other name is that of a volume. */
  predicate TargetIsAt(d: Bytes, at: nat, target: Target) {
    match target
    case Ground => NameIsAt(d, at, GROUND_NAME)
    case Body(volume) => NameIsAt(d, at, volume) && volume != GROUND_NAME
  }

  const CONSTRAINT_SIZE := 86

  predicate ConstraintLies(nums: Numbers, d: Bytes, at: nat, joints: nat, c: Constraint) {
    && Holds(d, at, CONSTRAINT_SIZE) && d[at] as nat == c.chainLength <= joints
    && d[at + 1] == (if c.kind.Point? then 0 else 1)
    && NameIsAt(d, at + 2, c.source) && VecIsAt(nums, d, at + 18, c.sourceOffset)
    && TargetIsAt(d, at + 30, c.target) && VecIsAt(nums, d, at + 46, c.targetOffset)
    && VecIsAt(nums, d, at + 58, c.targetDir)
    && |c.easing| == 4 && IsAt(nums, d, at + 70, c.easing[0]) && IsAt(nums, d, at + 74, c.easing[1])
    && IsAt(nums, d, at + 78, c.easing[2]) && IsAt(nums, d, at + 82, c.easing[3])
  }

  ghost predicate ListLies(nums: Numbers, d: Bytes, at: nat, joints: nat, list: seq<Constraint>) {
    forall k | 0 <= k < |list| :: ConstraintLies(nums, d, at + CONSTRAINT_SIZE * k, joints, list[k])
  }

  /** A number of constraints that cannot be right is passed over. */
  ghost predicate ConstraintsLie(nums: Numbers, d: Bytes, at: nat, joints: nat, list: seq<Constraint>, end: nat) {
    && Holds(d, at, 4) && end == at + 4 + CONSTRAINT_SIZE * |list|
    && (if 0 <= I32At(d, at) <= 10 then |list| == I32At(d, at) && ListLies(nums, d, at + 4, joints, list)
        else list == [])
  }

  /** Version 1.0, or 0.1 of old. */
  predicate VersionIs(d: Bytes, legacy: bool) {
    && Holds(d, 0, 4)
    && (if legacy then U16At(d, 0) == 0 && U16At(d, 2) == 1 else U16At(d, 0) == 1 && U16At(d, 2) == 0)
  }

  predicate HeaderLies(nums: Numbers, d: Bytes, h: Header) {
    && VersionIs(d, h.legacy)
    && Holds(d, 4, 4) && I32At(d, 4) >= -1 && h.basePriority == (if I32At(d, 4) >= 7 then 6 else I32At(d, 4))
    && IsAt(nums, d, 8, h.duration) && h.duration <= 60.0
    && TextIsAt(d, 12, h.emote)
  }

  predicate TimingLies(nums: Numbers, d: Bytes, at: nat, t: Timing) {
    && IsAt(nums, d, at, t.loopIn) && IsAt(nums, d, at + 4, t.loopOut)
    && Holds(d, at + 8, 4) && t.loops == (U32At(d, at + 8) != 0)
    && IsAt(nums, d, at + 12, t.easeIn) && IsAt(nums, d, at + 16, t.easeOut)
    && Holds(d, at + 20, 4) && t.handPose == U32At(d, at + 20) <= 14
  }

  /** Where the timing begins: behind the zero byte of the emote's name. */
  function TimingAt(h: Header): nat { 12 + |h.emote| + 1 }

  /** Where the first joint begins: behind the timing and the number of joints. */
  function FirstJoint(h: Header): nat { TimingAt(h) + 28 }

  /** The bytes up to `end` are those of the motion `m`. */
  ghost predicate LaidOut(nums: Numbers, d: Bytes, m: Motion, end: nat) {
    && HeaderLies(nums, d, m.header) && TimingLies(nums, d, TimingAt(m.header), m.timing)
    && Holds(d, TimingAt(m.header) + 24, 4) && U32At(d, TimingAt(m.header) + 24) == |m.joints| && 1 <= |m.joints| <= 216
    && JointsLie(nums, d, m.header, FirstJoint(m.header), m.joints)
    && ConstraintsLie(nums, d, JointAt(m.header, FirstJoint(m.header), m.joints, |m.joints|), |m.joints|,
                      m.constraints, end)
  }

  // ---------------------------------------------------------------------------------
  // Single fields.

  lemma LittleEndianIs(b: Bytes)
    ensures |b| == 1 ==> W.FromLittleEndian(b) == b[0] as nat
    ensures |b| == 2 ==> W.FromLittleEndian(b) == b[0] as nat + 0x100 * b[1] as nat
    ensures |b| == 4 ==> (W.FromLittleEndian(b)
         == b[0] as nat + 0x100 * b[1] as nat + 0x1_0000 * b[2] as nat + 0x100_0000 * b[3] as nat)
  {
    if |b| > 0 {
      var b1 := b[1..];
      assert W.FromLittleEndian(b) == b[0] as nat + 256 * W.FromLittleEndian(b1);
      if |b1| > 0 {
        var b2 := b1[1..];
        assert W.FromLittleEndian(b1) == b1[0] as nat + 256 * W.FromLittleEndian(b2);
        if |b| == 4 {
          var b3 := b2[1..];
          assert W.FromLittleEndian(b2) == b2[0] as nat + 256 * W.FromLittleEndian(b3);
          assert W.FromLittleEndian(b3) == b3[0] as nat + 256 * W.FromLittleEndian(b3[1..]);
        }
      }
    }
  }

  lemma U8Is(d: Bytes, at: nat, field: Field)
    ensures var r := Unsigned(d, at, 1, field);
            if Holds(d, at, 1) then r == Ok((d[at] as nat, at + 1)) else r.Err?
  {
    if Holds(d, at, 1) { LittleEndianIs(d[at..at + 1]); }
  }

  lemma U16Is(d: Bytes, at: nat, field: Field)
    ensures var r := Unsigned(d, at, 2, field);
            if Holds(d, at, 2) then r == Ok((U16At(d, at), at + 2)) else r.Err?
  {
    if Holds(d, at, 2) { LittleEndianIs(d[at..at + 2]); }
  }

  lemma U32Is(d: Bytes, at: nat, field: Field)
    ensures var r := Unsigned(d, at, 4, field);
            if Holds(d, at, 4) then r == Ok((U32At(d, at), at + 4)) else r.Err?
  {
    if Holds(d, at, 4) { LittleEndianIs(d[at..at + 4]); }
  }

  lemma FourBytes()
    ensures W.Pow256(4) == 0x1_0000_0000
  {
    assert W.Pow256(1) == 256 && W.Pow256(2) == 0x1_0000 && W.Pow256(3) == 0x100_0000;
  }

  lemma I32Is(d: Bytes, at: nat, field: Field)
    ensures var r := Signed(d, at, field);
            if Holds(d, at, 4) then r == Ok((I32At(d, at), at + 4)) else r.Err?
  {
    U32Is(d, at, field);
    FourBytes();
  }

  lemma FiniteIs(nums: Numbers, d: Bytes, at: nat, field: Field)
    ensures var r := Finite(nums, d, at, field);
            if Holds(d, at, 4) && nums.finite(U32At(d, at)).Some?
            then r == Ok((nums.finite(U32At(d, at)).value, at + 4)) else r.Err?
  {
    U32Is(d, at, field);
  }

  lemma VecIs(nums: Numbers, d: Bytes, at: nat, fx: Field, fy: Field, fz: Field)
    ensures var r := FiniteVec3(nums, d, at, fx, fy, fz);
            && (r.Ok? ==> VecIsAt(nums, d, at, r.value.0) && r.value.1 == at + 12)
            && forall v :: VecIsAt(nums, d, at, v) ==> r == Ok((v, at + 12))
  {
    FiniteIs(nums, d, at, fx);
    FiniteIs(nums, d, at + 4, fy);
    FiniteIs(nums, d, at + 8, fz);
  }

  lemma NoNulIn(d: Bytes, at: nat, text: Bytes)
    requires Holds(d, at, |text|) && d[at..at + |text|] == text && 0 !in text
    ensures forall i | at <= i < at + |text| :: d[i] != 0
  {
    forall i | at <= i < at + |text| ensures d[i] != 0 { assert d[i] == text[i - at]; }
  }

  lemma TextEnds(d: Bytes, at: nat, text: Bytes)
    requires TextIsAt(d, at, text)
    ensures NulAt(d, at) == at + |text|
  {
    NoNulIn(d, at, text);
  }

  lemma TextIs(d: Bytes, at: nat, field: Field)
    ensures var r := CString(d, at, field); r.Ok? ==>
              TextIsAt(d, at, r.value.0) && r.value.1 == at + |r.value.0| + 1
    ensures forall text :: TextIsAt(d, at, text) ==> CString(d, at, field) == Ok((text, at + |text| + 1))
  {
    forall text | TextIsAt(d, at, text) ensures CString(d, at, field) == Ok((text, at + |text| + 1)) {
      TextEnds(d, at, text);
    }
  }

  lemma NameEnds(d: Bytes, at: nat, name: Bytes, b: Bytes)
    requires NameIsAt(d, at, name) && b == d[at..at + 16]
    ensures NulAt(b, 0) == |name| && b[..|name|] == name
  {
    assert forall i | 0 <= i < 16 :: b[i] == d[at + i];
    assert b[..|name|] == d[at..at + |name|];
    NoNulIn(b, 0, name);
  }

  lemma NameStands(d: Bytes, at: nat, b: Bytes, nul: nat)
    requires Holds(d, at, 16) && b == d[at..at + 16] && nul == NulAt(b, 0)
    ensures NameIsAt(d, at, b[..nul])
  {
    assert forall i | 0 <= i < 16 :: b[i] == d[at + i];
    assert b[..nul] == d[at..at + nul];
  }

  lemma NameIs(d: Bytes, at: nat, field: Field)
    ensures var r := FixedName(d, at, VOLUME_NAME_LEN, field); r.Ok? ==>
              NameIsAt(d, at, r.value.0) && r.value.1 == at + 16
    ensures forall name :: NameIsAt(d, at, name) ==> FixedName(d, at, VOLUME_NAME_LEN, field) == Ok((name, at + 16))
  {
    if Holds(d, at, 16) {
      var b := d[at..at + 16];
      NameStands(d, at, b, NulAt(b, 0));
      forall name | NameIsAt(d, at, name) ensures NulAt(b, 0) == |name| && b[..|name|] == name {
        NameEnds(d, at, name, b);
      }
    }
  }

  lemma WidenIsPortion(value: nat, lower: real, upper: real)
    ensures Widen(value, lower, upper) == Portion(value, lower, upper)
  {
    var v, delta := value as real, upper - lower;
    var parts := lower * (65535.0 - v) + upper * v;
    assert lower * (65535.0 - v) == lower * 65535.0 - lower * v;
    assert delta * v == upper * v - lower * v;
    assert parts == delta * v + lower * 65535.0;
    assert v / 65535.0 * delta == delta * v / 65535.0;
    assert v / 65535.0 * delta + lower == parts / 65535.0;
  }

  // ---------------------------------------------------------------------------------
  // Keys.

  lemma ThreeFollow(d: Bytes, at: nat, fx: Field, fy: Field, fz: Field)
    requires Holds(d, at, 6)
    ensures ThreeU16(d, at, fx, fy, fz) == Ok((ThreeAt(d, at), at + 6))
  {
    U16Is(d, at, fx);
    U16Is(d, at + 2, fy);
    U16Is(d, at + 4, fz);
  }

  lemma ThreeBreakOff(d: Bytes, at: nat, fx: Field, fy: Field, fz: Field)
    requires !Holds(d, at, 6)
    ensures ThreeU16(d, at, fx, fy, fz).Err?
  {
  }

  lemma SpreadIsPortions(v: (nat, nat, nat), lower: real, upper: real)
    ensures Spread(v, lower, upper) == Portions(v, lower, upper)
  {
    WidenIsPortion(v.0, lower, upper);
    WidenIsPortion(v.1, lower, upper);
    WidenIsPortion(v.2, lower, upper);
  }

  lemma QuantisedAre(d: Bytes, at: nat, fx: Field, fy: Field, fz: Field, lower: real, upper: real)
    ensures var r := QuantisedVec3(d, at, fx, fy, fz, lower, upper);
            if Holds(d, at, 6) then r == Ok((Portions(ThreeAt(d, at), lower, upper), at + 6)) else r.Err?
  {
    if Holds(d, at, 6) {
      ThreeFollow(d, at, fx, fy, fz);
      SpreadIsPortions(ThreeAt(d, at), lower, upper);
    } else {
      ThreeBreakOff(d, at, fx, fy, fz);
    }
  }

  lemma OldRotationIs(nums: Numbers, d: Bytes, h: Header, at: nat)
    requires h.legacy
    ensures var r := OldRotationKey(nums, d, at); r.Ok? ==>
              RotationLies(nums, d, h, at, r.value.0) && r.value.1 == at + 16
    ensures forall key :: RotationLies(nums, d, h, at, key) ==> OldRotationKey(nums, d, at) == Ok((key, at + 16))
  {
    FiniteIs(nums, d, at, RotTime);
    FiniteIs(nums, d, at + 4, RotX);
    FiniteIs(nums, d, at + 8, RotY);
    FiniteIs(nums, d, at + 12, RotZ);
  }

  lemma NewRotationIs(nums: Numbers, d: Bytes, h: Header, at: nat)
    requires !h.legacy
    ensures var r := NewRotationKey(nums, d, at, h.duration); r.Ok? ==>
              RotationLies(nums, d, h, at, r.value.0) && r.value.1 == at + 8
    ensures forall key :: RotationLies(nums, d, h, at, key) ==>
              NewRotationKey(nums, d, at, h.duration) == Ok((key, at + 8))
  {
    U16Is(d, at, RotTime);
    if Holds(d, at, 2) { WidenIsPortion(U16At(d, at), 0.0, h.duration); }
    QuantisedAre(d, at + 2, RotX, RotY, RotZ, -1.0, 1.0);
  }

  lemma OldPositionIs(nums: Numbers, d: Bytes, h: Header, at: nat)
    requires h.legacy
    ensures var r := OldPositionKey(nums, d, at); r.Ok? ==>
              PositionLies(nums, d, h, at, r.value.0) && r.value.1 == at + 16
    ensures forall key :: PositionLies(nums, d, h, at, key) ==> OldPositionKey(nums, d, at) == Ok((key, at + 16))
  {
    FiniteIs(nums, d, at, PosTime);
    FiniteIs(nums, d, at + 4, PosX);
    FiniteIs(nums, d, at + 8, PosY);
    FiniteIs(nums, d, at + 12, PosZ);
  }

  lemma NewPositionIs(nums: Numbers, d: Bytes, h: Header, at: nat)
    requires !h.legacy
    ensures var r := NewPositionKey(d, at, h.duration); r.Ok? ==>
              PositionLies(nums, d, h, at, r.value.0) && r.value.1 == at + 8
    ensures forall key :: PositionLies(nums, d, h, at, key) ==> NewPositionKey(d, at, h.duration) == Ok((key, at + 8))
  {
    U16Is(d, at, PosTime);
    if Holds(d, at, 2) { WidenIsPortion(U16At(d, at), 0.0, h.duration); }
    QuantisedAre(d, at + 2, PosX, PosY, PosZ, -MAX_PELVIS_OFFSET, MAX_PELVIS_OFFSET);
  }

  // ---------------------------------------------------------------------------------
  // Any number of items behind each other.

  /** `one` reads exactly the item that lies there, and ends where it ends. */
  ghost predicate ReadsAt<T(!new)>(one: nat -> Read<T>, lies: (nat, T) -> bool, size: T -> nat, at: nat) {
    && (one(at).Ok? ==> lies(at, one(at).value.0) && one(at).value.1 == at + size(one(at).value.0))
    && forall x :: lies(at, x) ==> one(at) == Ok((x, at + size(x)))
  }

  function Many<T>(one: nat -> Read<T>, at: nat, n: nat, items: seq<T>): Read<seq<T>>
    decreases n
  {
    if n == 0 then Ok((items, at))
    else
      var x :- one(at);
      Many(one, x.1, n - 1, items + [x.0])
  }

  predicate AllLie<T>(lies: (nat, T) -> bool, size: T -> nat, at: nat, items: seq<T>)
    decreases |items|
  {
    items == [] || (lies(at, items[0]) && AllLie(lies, size, at + size(items[0]), items[1..]))
  }

  function End<T>(size: T -> nat, at: nat, items: seq<T>): nat
    decreases |items|
  {
    if items == [] then at else End(size, at + size(items[0]), items[1..])
  }

  lemma {:induction false} ManyLie<T(!new)>(one: nat -> Read<T>, lies: (nat, T) -> bool, size: T -> nat, at: nat,
                                            n: nat, before: seq<T>, r: Read<seq<T>>) returns (items: seq<T>)
    requires forall p :: ReadsAt(one, lies, size, p)
    requires r == Many(one, at, n, before) && r.Ok?
    ensures r == Ok((before + items, End(size, at, items))) && |items| == n && AllLie(lies, size, at, items)
    decreases n
  {
    items := [];
    assert before + items == before;
    if n > 0 {
      assert ReadsAt(one, lies, size, at);
      var x := one(at).value.0;
      var rest := ManyLie(one, lies, size, at + size(x), n - 1, before + [x], r);
      items := [x] + rest;
      assert before + items == before + [x] + rest && items[1..] == rest;
    }
  }

  lemma {:induction false} LyingAreRead<T(!new)>(one: nat -> Read<T>, lies: (nat, T) -> bool, size: T -> nat, at: nat,
                                                 before: seq<T>, items: seq<T>)
    requires forall p :: ReadsAt(one, lies, size, p)
    requires AllLie(lies, size, at, items)
    ensures Many(one, at, |items|, before) == Ok((before + items, End(size, at, items)))
    decreases |items|
  {
    if items != [] {
      assert ReadsAt(one, lies, size, at);
      LyingAreRead(one, lies, size, at + size(items[0]), before + [items[0]], items[1..]);
      assert before + items == before + [items[0]] + items[1..];
    } else {
      assert before + items == before;
    }
  }

  /** Reading them in turn yields exactly the items that lie there. */
  lemma ManyAre<T(!new)>(one: nat -> Read<T>, lies: (nat, T) -> bool, size: T -> nat, at: nat, n: nat, items: seq<T>,
                         end: nat)
    requires forall p :: ReadsAt(one, lies, size, p)
    ensures Many(one, at, n, []) == Ok((items, end))
       <==> |items| == n && AllLie(lies, size, at, items) && end == End(size, at, items)
  {
    if Many(one, at, n, []) == Ok((items, end)) {
      var found := ManyLie(one, lies, size, at, n, [], Many(one, at, n, []));
      assert [] + found == found;
    }
    if |items| == n && AllLie(lies, size, at, items) {
      LyingAreRead(one, lies, size, at, [], items);
      assert [] + items == items;
    }
  }

  lemma OneStepOn(step: nat, at: nat, k: nat)
    ensures at + step * (k + 1) == at + step + step * k
  {
  }

  ghost predicate Spaced<T>(lies: (nat, T) -> bool, step: nat, at: nat, items: seq<T>) {
    forall k | 0 <= k < |items| :: lies(at + step * k, items[k])
  }

  lemma SpacedSplits<T>(lies: (nat, T) -> bool, step: nat, at: nat, items: seq<T>)
    requires items != []
    ensures Spaced(lies, step, at, items) <==> lies(at, items[0]) && Spaced(lies, step, at + step, items[1..])
  {
    assert at + step * 0 == at;
    if Spaced(lies, step, at, items) {
      forall k | 0 <= k < |items[1..]| ensures lies(at + step + step * k, items[1..][k]) {
        OneStepOn(step, at, k);
        assert lies(at + step * (k + 1), items[k + 1]);
      }
    }
    if lies(at, items[0]) && Spaced(lies, step, at + step, items[1..]) {
      forall k | 0 <= k < |items| ensures lies(at + step * k, items[k]) {
        if k > 0 {
          OneStepOn(step, at, k - 1);
          assert lies(at + step + step * (k - 1), items[1..][k - 1]);
        }
      }
    }
  }

  /** Items of one size begin that far from each other. */
  lemma {:induction false} EvenlySpaced<T>(lies: (nat, T) -> bool, size: T -> nat, step: nat, at: nat, items: seq<T>)
    requires forall x :: size(x) == step
    ensures AllLie(lies, size, at, items) <==> Spaced(lies, step, at, items)
    ensures End(size, at, items) == at + step * |items|
    decreases |items|
  {
    if items != [] {
      EvenlySpaced(lies, size, step, at + step, items[1..]);
      SpacedSplits(lies, step, at, items);
      OneStepOn(step, at, |items| - 1);
    }
  }

  // ---------------------------------------------------------------------------------
  // Tracks.

  function RotationReader(nums: Numbers, d: Bytes, h: Header): nat -> Read<RotationKey> {
    (at: nat) => OneRotationKey(nums, d, at, h)
  }

  function RotationPlace(nums: Numbers, d: Bytes, h: Header): (nat, RotationKey) -> bool {
    (at: nat, key: RotationKey) => RotationLies(nums, d, h, at, key)
  }

  function PositionReader(nums: Numbers, d: Bytes, h: Header): nat -> Read<PositionKey> {
    (at: nat) => OnePositionKey(nums, d, at, h)
  }

  function PositionPlace(nums: Numbers, d: Bytes, h: Header): (nat, PositionKey) -> bool {
    (at: nat, key: PositionKey) => PositionLies(nums, d, h, at, key)
  }

  function EachTakes<T>(n: nat): T -> nat { x => n }

  lemma RotationReads(nums: Numbers, d: Bytes, h: Header, at: nat)
    ensures ReadsAt(RotationReader(nums, d, h), RotationPlace(nums, d, h), EachTakes(KeySize(h)), at)
  {
    if h.legacy { OldRotationIs(nums, d, h, at); } else { NewRotationIs(nums, d, h, at); }
  }

  lemma PositionReads(nums: Numbers, d: Bytes, h: Header, at: nat)
    ensures ReadsAt(PositionReader(nums, d, h), PositionPlace(nums, d, h), EachTakes(KeySize(h)), at)
  {
    if h.legacy { OldPositionIs(nums, d, h, at); } else { NewPositionIs(nums, d, h, at); }
  }

  lemma {:induction false} RotationsAreMany(nums: Numbers, d: Bytes, at: nat, h: Header, n: nat, keys: seq<RotationKey>)
    ensures RotationKeys(nums, d, at, h, n, keys) == Many(RotationReader(nums, d, h), at, n, keys)
    decreases n
  {
    if n > 0 {
      RotationKeysNext(nums, d, at, h, n, keys);
      var key := OneRotationKey(nums, d, at, h);
      if key.Ok? { RotationsAreMany(nums, d, key.value.1, h, n - 1, keys + [key.value.0]); }
    }
  }

  lemma {:induction false} PositionsAreMany(nums: Numbers, d: Bytes, at: nat, h: Header, n: nat, keys: seq<PositionKey>)
    ensures PositionKeys(nums, d, at, h, n, keys) == Many(PositionReader(nums, d, h), at, n, keys)
    decreases n
  {
    if n > 0 {
      PositionKeysNext(nums, d, at, h, n, keys);
      var key := OnePositionKey(nums, d, at, h);
      if key.Ok? { PositionsAreMany(nums, d, key.value.1, h, n - 1, keys + [key.value.0]); }
    }
  }

  lemma RotationsSpaced(nums: Numbers, d: Bytes, h: Header, at: nat, keys: seq<RotationKey>)
    ensures RotationsLie(nums, d, h, at, keys) <==> Spaced(RotationPlace(nums, d, h), KeySize(h), at, keys)
  {
    if RotationsLie(nums, d, h, at, keys) {
      forall k | 0 <= k < |keys| ensures RotationPlace(nums, d, h)(at + KeySize(h) * k, keys[k]) {
        assert RotationLies(nums, d, h, at + KeySize(h) * k, keys[k]);
      }
    }
    if Spaced(RotationPlace(nums, d, h), KeySize(h), at, keys) {
      forall k | 0 <= k < |keys| ensures RotationLies(nums, d, h, at + KeySize(h) * k, keys[k]) {
        assert RotationPlace(nums, d, h)(at + KeySize(h) * k, keys[k]);
      }
    }
  }

  lemma PositionsSpaced(nums: Numbers, d: Bytes, h: Header, at: nat, keys: seq<PositionKey>)
    ensures PositionsLie(nums, d, h, at, keys) <==> Spaced(PositionPlace(nums, d, h), KeySize(h), at, keys)
  {
    if PositionsLie(nums, d, h, at, keys) {
      forall k | 0 <= k < |keys| ensures PositionPlace(nums, d, h)(at + KeySize(h) * k, keys[k]) {
        assert PositionLies(nums, d, h, at + KeySize(h) * k, keys[k]);
      }
    }
    if Spaced(PositionPlace(nums, d, h), KeySize(h), at, keys) {
      forall k | 0 <= k < |keys| ensures PositionLies(nums, d, h, at + KeySize(h) * k, keys[k]) {
        assert PositionPlace(nums, d, h)(at + KeySize(h) * k, keys[k]);
      }
    }
  }

  lemma RotationKeysAre(nums: Numbers, d: Bytes, at: nat, h: Header, n: nat, keys: seq<RotationKey>, end: nat)
    ensures RotationKeys(nums, d, at, h, n, []) == Ok((keys, end))
       <==> |keys| == n && RotationsLie(nums, d, h, at, keys) && end == at + KeySize(h) * n
  {
    var one, lies, size := RotationReader(nums, d, h), RotationPlace(nums, d, h), EachTakes(KeySize(h));
    forall p ensures ReadsAt(one, lies, size, p) { RotationReads(nums, d, h, p); }
    RotationsAreMany(nums, d, at, h, n, []);
    ManyAre(one, lies, size, at, n, keys, end);
    EvenlySpaced(lies, size, KeySize(h), at, keys);
    RotationsSpaced(nums, d, h, at, keys);
  }

  lemma PositionKeysAre(nums: Numbers, d: Bytes, at: nat, h: Header, n: nat, keys: seq<PositionKey>, end: nat)
    ensures PositionKeys(nums, d, at, h, n, []) == Ok((keys, end))
       <==> |keys| == n && PositionsLie(nums, d, h, at, keys) && end == at + KeySize(h) * n
  {
    var one, lies, size := PositionReader(nums, d, h), PositionPlace(nums, d, h), EachTakes(KeySize(h));
    forall p ensures ReadsAt(one, lies, size, p) { PositionReads(nums, d, h, p); }
    PositionsAreMany(nums, d, at, h, n, []);
    ManyAre(one, lies, size, at, n, keys, end);
    EvenlySpaced(lies, size, KeySize(h), at, keys);
    PositionsSpaced(nums, d, h, at, keys);
  }

  /** The number of keys and the keys, up to `end`. */
  ghost predicate RotationTrackLies(nums: Numbers, d: Bytes, h: Header, at: nat, keys: seq<RotationKey>, end: nat) {
    && CountedBefore(d, at + 4, |keys|) && RotationsLie(nums, d, h, at + 4, keys)
    && end == at + 4 + KeySize(h) * |keys|
  }

  lemma RotationTrackIs(nums: Numbers, d: Bytes, at: nat, h: Header, keys: seq<RotationKey>, end: nat)
    ensures RotationTrack(nums, d, at, h) == Ok((keys, end))
       <==> RotationTrackLies(nums, d, h, at, keys, end)
  {
    I32Is(d, at, NumRotKeys);
    if Holds(d, at, 4) && I32At(d, at) >= 0 { RotationKeysAre(nums, d, at + 4, h, I32At(d, at), keys, end); }
  }

  /** The number of keys and the keys, up to `end`. */
  ghost predicate PositionTrackLies(nums: Numbers, d: Bytes, h: Header, at: nat, keys: seq<PositionKey>, end: nat) {
    && CountedBefore(d, at + 4, |keys|) && PositionsLie(nums, d, h, at + 4, keys)
    && end == at + 4 + KeySize(h) * |keys|
  }

  lemma PositionTrackIs(nums: Numbers, d: Bytes, at: nat, h: Header, keys: seq<PositionKey>, end: nat)
    ensures PositionTrack(nums, d, at, h) == Ok((keys, end))
       <==> PositionTrackLies(nums, d, h, at, keys, end)
  {
    I32Is(d, at, NumPosKeys);
    if Holds(d, at, 4) && I32At(d, at) >= 0 { PositionKeysAre(nums, d, at + 4, h, I32At(d, at), keys, end); }
  }

  // ---------------------------------------------------------------------------------
  // Joints.

  lemma PriorityIs(d: Bytes, at: nat)
    ensures var r := JointPriority(d, at);
            if Holds(d, at, 4) && I32At(d, at) >= -1 then r == Ok((I32At(d, at), at + 4)) else r.Err?
  {
    I32Is(d, at, JointPriorityField);
  }

  function ReadCaption(d: Bytes, at: nat): Read<(Bytes, int)> {
    var name :- CString(d, at, JointName);
    var priority :- JointPriority(d, name.1);
    Ok(((name.0, priority.0), priority.1))
  }

  function ReadTracks(nums: Numbers, d: Bytes, at: nat, h: Header): Read<(seq<RotationKey>, seq<PositionKey>)> {
    var rotations :- RotationTrack(nums, d, at, h);
    var positions :- PositionTrack(nums, d, rotations.1, h);
    Ok(((rotations.0, positions.0), positions.1))
  }

  function Assembled(nums: Numbers, d: Bytes, h: Header, caption: Read<(Bytes, int)>): Read<Joint> {
    var c :- caption;
    var tracks :- ReadTracks(nums, d, c.1, h);
    Ok((Joint(c.0.0, c.0.1, tracks.0.0, tracks.0.1), tracks.1))
  }

  lemma OneJointIs(nums: Numbers, d: Bytes, h: Header, at: nat)
    ensures OneJoint(nums, d, at, h) == Assembled(nums, d, h, ReadCaption(d, at))
  {
  }

  /** The name and the priority of a joint, up to `end`. */
  predicate CaptionLies(d: Bytes, at: nat, name: Bytes, priority: int, end: nat) {
    && TextIsAt(d, at, name) && end == at + |name| + 5
    && Holds(d, end - 4, 4) && I32At(d, end - 4) == priority >= -1
  }

  lemma TextReads(d: Bytes, at: nat, field: Field, text: Bytes, end: nat)
    ensures CString(d, at, field) == Ok((text, end)) <==> TextIsAt(d, at, text) && end == at + |text| + 1
  {
    TextIs(d, at, field);
  }

  lemma CaptionIsRead(d: Bytes, at: nat, name: Bytes, priority: int, end: nat)
    requires CaptionLies(d, at, name, priority, end)
    ensures ReadCaption(d, at) == Ok(((name, priority), end))
  {
    TextReads(d, at, JointName, name, end - 4);
    PriorityIs(d, end - 4);
  }

  lemma ReadCaptionLies(d: Bytes, at: nat, r: Read<(Bytes, int)>)
    requires r == ReadCaption(d, at) && r.Ok?
    ensures CaptionLies(d, at, r.value.0.0, r.value.0.1, r.value.1)
  {
    var name := CString(d, at, JointName).value;
    TextReads(d, at, JointName, name.0, name.1);
    PriorityIs(d, name.1);
  }

  lemma CaptionIs(d: Bytes, at: nat, name: Bytes, priority: int, end: nat)
    ensures ReadCaption(d, at) == Ok(((name, priority), end)) <==> CaptionLies(d, at, name, priority, end)
  {
    if CaptionLies(d, at, name, priority, end) { CaptionIsRead(d, at, name, priority, end); }
    if ReadCaption(d, at).Ok? { ReadCaptionLies(d, at, ReadCaption(d, at)); }
  }

  ghost predicate TracksLie(nums: Numbers, d: Bytes, h: Header, at: nat, rotations: seq<RotationKey>,
                            positions: seq<PositionKey>, end: nat)
  {
    var positionsAt := at + 4 + KeySize(h) * |rotations|;
    && RotationTrackLies(nums, d, h, at, rotations, positionsAt)
    && PositionTrackLies(nums, d, h, positionsAt, positions, end)
  }

  lemma TracksAreRead(nums: Numbers, d: Bytes, h: Header, at: nat, rotations: seq<RotationKey>,
                      positions: seq<PositionKey>, positionsAt: nat, end: nat)
    requires RotationTrackLies(nums, d, h, at, rotations, positionsAt)
    requires PositionTrackLies(nums, d, h, positionsAt, positions, end)
    ensures ReadTracks(nums, d, at, h) == Ok(((rotations, positions), end))
  {
    RotationTrackIs(nums, d, at, h, rotations, positionsAt);
    PositionTrackIs(nums, d, positionsAt, h, positions, end);
  }

  lemma ReadTracksLie(nums: Numbers, d: Bytes, h: Header, at: nat, r: Read<(seq<RotationKey>, seq<PositionKey>)>)
    returns (positionsAt: nat)
    requires r == ReadTracks(nums, d, at, h) && r.Ok?
    ensures RotationTrackLies(nums, d, h, at, r.value.0.0, positionsAt)
    ensures PositionTrackLies(nums, d, h, positionsAt, r.value.0.1, r.value.1)
  {
    positionsAt := RotationTrack(nums, d, at, h).value.1;
    RotationTrackIs(nums, d, at, h, r.value.0.0, positionsAt);
    PositionTrackIs(nums, d, positionsAt, h, r.value.0.1, r.value.1);
  }

  lemma TracksAre(nums: Numbers, d: Bytes, h: Header, at: nat, rotations: seq<RotationKey>,
                  positions: seq<PositionKey>, end: nat)
    ensures ReadTracks(nums, d, at, h) == Ok(((rotations, positions), end))
       <==> TracksLie(nums, d, h, at, rotations, positions, end)
  {
    if TracksLie(nums, d, h, at, rotations, positions, end) {
      TracksAreRead(nums, d, h, at, rotations, positions, at + 4 + KeySize(h) * |rotations|, end);
    }
    if ReadTracks(nums, d, at, h) == Ok(((rotations, positions), end)) {
      var positionsAt := ReadTracksLie(nums, d, h, at, ReadTracks(nums, d, at, h));
    }
  }

  lemma JointHasParts(nums: Numbers, d: Bytes, h: Header, at: nat, joint: Joint, tracksAt: nat)
    requires tracksAt == at + |joint.name| + 5
    ensures JointLies(nums, d, h, at, joint)
       <==> && CaptionLies(d, at, joint.name, joint.priority, tracksAt)
            && TracksLie(nums, d, h, tracksAt, joint.rotations, joint.positions, JointEnd(h, at, joint))
    ensures forall end :: TracksLie(nums, d, h, tracksAt, joint.rotations, joint.positions, end)
              ==> end == JointEnd(h, at, joint)
  {
  }

  lemma JointIsRead(nums: Numbers, d: Bytes, h: Header, at: nat, joint: Joint)
    requires JointLies(nums, d, h, at, joint)
    ensures OneJoint(nums, d, at, h) == Ok((joint, JointEnd(h, at, joint)))
  {
    var tracksAt := at + |joint.name| + 5;
    JointHasParts(nums, d, h, at, joint, tracksAt);
    CaptionIs(d, at, joint.name, joint.priority, tracksAt);
    TracksAre(nums, d, h, tracksAt, joint.rotations, joint.positions, JointEnd(h, at, joint));
    OneJointIs(nums, d, h, at);
  }

  lemma ReadJointLies(nums: Numbers, d: Bytes, h: Header, at: nat, r: Read<Joint>)
    requires r == OneJoint(nums, d, at, h) && r.Ok?
    ensures JointLies(nums, d, h, at, r.value.0) && r.value.1 == JointEnd(h, at, r.value.0)
  {
    OneJointIs(nums, d, h, at);
    var joint, caption := r.value.0, ReadCaption(d, at).value;
    CaptionIs(d, at, joint.name, joint.priority, caption.1);
    TracksAre(nums, d, h, caption.1, joint.rotations, joint.positions, r.value.1);
    JointHasParts(nums, d, h, at, joint, caption.1);
  }

  function JointReader(nums: Numbers, d: Bytes, h: Header): nat -> Read<Joint> {
    (at: nat) => OneJoint(nums, d, at, h)
  }

  ghost function JointPlace(nums: Numbers, d: Bytes, h: Header): (nat, Joint) -> bool {
    (at: nat, joint: Joint) => JointLies(nums, d, h, at, joint)
  }

  function JointSize(h: Header): Joint -> nat { joint => JointEnd(h, 0, joint) }

  lemma JointReads(nums: Numbers, d: Bytes, h: Header, at: nat)
    ensures ReadsAt(JointReader(nums, d, h), JointPlace(nums, d, h), JointSize(h), at)
  {
    var r := OneJoint(nums, d, at, h);
    if r.Ok? {
      ReadJointLies(nums, d, h, at, r);
      JointEndsLater(h, at, r.value.0);
    }
    forall joint | JointPlace(nums, d, h)(at, joint) ensures r == Ok((joint, at + JointSize(h)(joint))) {
      JointIsRead(nums, d, h, at, joint);
      JointEndsLater(h, at, joint);
    }
  }

  lemma JointEndsLater(h: Header, at: nat, joint: Joint)
    ensures JointEnd(h, at, joint) == at + JointSize(h)(joint)
  {
  }

  lemma {:induction false} JointsAreMany(nums: Numbers, d: Bytes, at: nat, h: Header, n: nat, joints: seq<Joint>)
    ensures Joints(nums, d, at, h, n, joints) == Many(JointReader(nums, d, h), at, n, joints)
    decreases n
  {
    if n > 0 {
      var step := JointsStep(nums, d, at, h, n, joints);
      if step.Goes? { JointsAreMany(nums, d, step.next, h, n - 1, joints + [step.item]); }
    }
  }

  lemma {:induction false} JointsFollow(nums: Numbers, d: Bytes, h: Header, at: nat, joints: seq<Joint>)
    ensures AllLie(JointPlace(nums, d, h), JointSize(h), at, joints) == JointsLie(nums, d, h, at, joints)
    ensures End(JointSize(h), at, joints) == JointAt(h, at, joints, |joints|)
    decreases |joints|
  {
    if joints != [] {
      var first, next, rest := joints[0], JointEnd(h, at, joints[0]), joints[1..];
      JointEndsLater(h, at, first);
      JointsFollow(nums, d, h, next, rest);
      JointsSplit(nums, d, h, at, joints);
      assert JointPlace(nums, d, h)(at, first) == JointLies(nums, d, h, at, first);
    }
  }

  lemma JointsSplit(nums: Numbers, d: Bytes, h: Header, at: nat, joints: seq<Joint>)
    requires joints != []
    ensures JointsLie(nums, d, h, at, joints)
       <==> JointLies(nums, d, h, at, joints[0]) && JointsLie(nums, d, h, JointEnd(h, at, joints[0]), joints[1..])
  {
    var next, rest := JointEnd(h, at, joints[0]), joints[1..];
    assert forall j | 0 < j < |joints| :: JointAt(h, at, joints, j) == JointAt(h, next, rest, j - 1);
    if JointsLie(nums, d, h, at, joints) {
      assert JointLies(nums, d, h, JointAt(h, at, joints, 0), joints[0]);
      forall j | 0 <= j < |rest| ensures JointLies(nums, d, h, JointAt(h, next, rest, j), rest[j]) {
        assert JointLies(nums, d, h, JointAt(h, at, joints, j + 1), joints[j + 1]);
      }
    }
    if JointLies(nums, d, h, at, joints[0]) && JointsLie(nums, d, h, next, rest) {
      forall j | 0 <= j < |joints| ensures JointLies(nums, d, h, JointAt(h, at, joints, j), joints[j]) {
        if j > 0 { assert JointLies(nums, d, h, JointAt(h, next, rest, j - 1), rest[j - 1]); }
      }
    }
  }

  lemma JointsAre(nums: Numbers, d: Bytes, at: nat, h: Header, n: nat, joints: seq<Joint>, end: nat)
    ensures Joints(nums, d, at, h, n, []) == Ok((joints, end))
       <==> |joints| == n && JointsLie(nums, d, h, at, joints) && end == JointAt(h, at, joints, |joints|)
  {
    var one, lies, size := JointReader(nums, d, h), JointPlace(nums, d, h), JointSize(h);
    forall p ensures ReadsAt(one, lies, size, p) { JointReads(nums, d, h, p); }
    JointsAreMany(nums, d, at, h, n, []);
    ManyAre(one, lies, size, at, n, joints, end);
    JointsFollow(nums, d, h, at, joints);
  }

  // ---------------------------------------------------------------------------------
  // Constraints.

  lemma KindIs(d: Bytes, at: nat)
    ensures var r := Kind(d, at);
            && (r.Ok? ==> Holds(d, at, 1) && d[at] == (if r.value.0.Point? then 0 else 1) && r.value.1 == at + 1)
            && forall kind: ConstraintType ::
                 Holds(d, at, 1) && d[at] == (if kind.Point? then 0 else 1) ==> r == Ok((kind, at + 1))
  {
    U8Is(d, at, ConstraintTypeField);
  }

  lemma ChainIs(d: Bytes, at: nat, joints: nat)
    ensures var r := Chain(d, at, joints);
            if Holds(d, at, 1) && d[at] as nat <= joints then r == Ok((d[at] as nat, at + 1)) else r.Err?
  {
    U8Is(d, at, ChainLength);
  }

  lemma AnchoredIs(nums: Numbers, d: Bytes, at: nat, volume: Field, offset: Field, name: Bytes, point: Vec3, end: nat)
    ensures Anchored(nums, d, at, volume, offset) == Ok(((name, point), end))
       <==> NameIsAt(d, at, name) && VecIsAt(nums, d, at + 16, point) && end == at + 28
  {
    NameIs(d, at, volume);
    VecIs(nums, d, at + 16, offset, offset, offset);
  }

  /** The ends of a constraint. */
  predicate EndsLie(nums: Numbers, d: Bytes, at: nat, e: Ends) {
    && NameIsAt(d, at, e.source) && VecIsAt(nums, d, at + 16, e.sourceOffset)
    && TargetIsAt(d, at + 28, e.target) && VecIsAt(nums, d, at + 44, e.targetOffset)
    && VecIsAt(nums, d, at + 56, e.targetDir)
  }

  function NameOf(target: Target): Bytes { if target.Ground? then GROUND_NAME else target.volume }

  lemma TargetIs(d: Bytes, at: nat, name: Bytes, target: Target)
    ensures NameIsAt(d, at, name) && target == TargetOf(name) ==> TargetIsAt(d, at, target)
    ensures TargetIsAt(d, at, target) ==> NameIsAt(d, at, NameOf(target)) && TargetOf(NameOf(target)) == target
  {
  }

  lemma EndsAreRead(nums: Numbers, d: Bytes, at: nat, e: Ends)
    requires EndsLie(nums, d, at, e)
    ensures ReadEnds(nums, d, at) == Ok((e, at + 68))
  {
    TargetIs(d, at + 28, NameOf(e.target), e.target);
    AnchoredIs(nums, d, at, SourceVolume, SourceOffset, e.source, e.sourceOffset, at + 28);
    AnchoredIs(nums, d, at + 28, TargetVolume, TargetOffset, NameOf(e.target), e.targetOffset, at + 56);
    VecIs(nums, d, at + 56, TargetDir, TargetDir, TargetDir);
  }

  lemma ReadEndsLie(nums: Numbers, d: Bytes, at: nat, r: Read<Ends>)
    requires r == ReadEnds(nums, d, at) && r.Ok?
    ensures EndsLie(nums, d, at, r.value.0) && r.value.1 == at + 68
  {
    var e := r.value.0;
    var source := Anchored(nums, d, at, SourceVolume, SourceOffset).value;
    AnchoredIs(nums, d, at, SourceVolume, SourceOffset, source.0.0, source.0.1, source.1);
    var target := Anchored(nums, d, at + 28, TargetVolume, TargetOffset).value;
    AnchoredIs(nums, d, at + 28, TargetVolume, TargetOffset, target.0.0, target.0.1, target.1);
    TargetIs(d, at + 28, target.0.0, e.target);
    VecIs(nums, d, at + 56, TargetDir, TargetDir, TargetDir);
  }

  predicate EasingLies(nums: Numbers, d: Bytes, at: nat, easing: seq<real>) {
    && |easing| == 4 && IsAt(nums, d, at, easing[0]) && IsAt(nums, d, at + 4, easing[1])
    && IsAt(nums, d, at + 8, easing[2]) && IsAt(nums, d, at + 12, easing[3])
  }

  lemma EasingIs(nums: Numbers, d: Bytes, at: nat, easing: seq<real>)
    ensures EasingLies(nums, d, at, easing) ==> Easing(nums, d, at) == Ok((easing, at + 16))
    ensures var r := Easing(nums, d, at); r.Ok? ==> EasingLies(nums, d, at, r.value.0) && r.value.1 == at + 16
  {
    FiniteIs(nums, d, at, EaseInStart);
    FiniteIs(nums, d, at + 4, EaseInStop);
    FiniteIs(nums, d, at + 8, EaseOutStart);
    FiniteIs(nums, d, at + 12, EaseOutStop);
    if EasingLies(nums, d, at, easing) { assert easing == [easing[0], easing[1], easing[2], easing[3]]; }
  }

  function EndsOf(c: Constraint): Ends { Ends(c.source, c.sourceOffset, c.target, c.targetOffset, c.targetDir) }

  lemma ConstraintParts(nums: Numbers, d: Bytes, at: nat, joints: nat, c: Constraint)
    ensures ConstraintLies(nums, d, at, joints, c)
       <==> && Holds(d, at, 2) && d[at] as nat == c.chainLength <= joints
            && d[at + 1] == (if c.kind.Point? then 0 else 1)
            && EndsLie(nums, d, at + 2, EndsOf(c)) && EasingLies(nums, d, at + 70, c.easing)
  {
  }

  lemma ConstraintIsRead(nums: Numbers, d: Bytes, at: nat, joints: nat, c: Constraint)
    requires ConstraintLies(nums, d, at, joints, c)
    ensures OneConstraint(nums, d, at, joints) == Ok((c, at + CONSTRAINT_SIZE))
  {
    ConstraintParts(nums, d, at, joints, c);
    ChainIs(d, at, joints);
    KindIs(d, at + 1);
    EndsAreRead(nums, d, at + 2, EndsOf(c));
    EasingIs(nums, d, at + 70, c.easing);
  }

  lemma ReadConstraintLies(nums: Numbers, d: Bytes, at: nat, joints: nat, r: Read<Constraint>)
    requires r == OneConstraint(nums, d, at, joints) && r.Ok?
    ensures ConstraintLies(nums, d, at, joints, r.value.0) && r.value.1 == at + CONSTRAINT_SIZE
  {
    ChainIs(d, at, joints);
    KindIs(d, at + 1);
    ReadEndsLie(nums, d, at + 2, ReadEnds(nums, d, at + 2));
    EasingIs(nums, d, at + 70, []);
    ConstraintParts(nums, d, at, joints, r.value.0);
  }

  function ConstraintReader(nums: Numbers, d: Bytes, joints: nat): nat -> Read<Constraint> {
    (at: nat) => OneConstraint(nums, d, at, joints)
  }

  function ConstraintPlace(nums: Numbers, d: Bytes, joints: nat): (nat, Constraint) -> bool {
    (at: nat, c: Constraint) => ConstraintLies(nums, d, at, joints, c)
  }

  lemma ConstraintReads(nums: Numbers, d: Bytes, joints: nat, at: nat)
    ensures ReadsAt(ConstraintReader(nums, d, joints), ConstraintPlace(nums, d, joints), EachTakes(CONSTRAINT_SIZE), at)
  {
    var r := OneConstraint(nums, d, at, joints);
    if r.Ok? { ReadConstraintLies(nums, d, at, joints, r); }
    forall c | ConstraintLies(nums, d, at, joints, c) ensures r == Ok((c, at + CONSTRAINT_SIZE)) {
      ConstraintIsRead(nums, d, at, joints, c);
    }
  }

  lemma {:induction false} ConstraintsAreMany(nums: Numbers, d: Bytes, at: nat, joints: nat, n: nat,
                                              list: seq<Constraint>)
    ensures ConstraintList(nums, d, at, joints, n, list) == Many(ConstraintReader(nums, d, joints), at, n, list)
    decreases n
  {
    if n > 0 {
      var step := ConstraintsStep(nums, d, at, joints, n, list);
      if step.Goes? { ConstraintsAreMany(nums, d, step.next, joints, n - 1, list + [step.item]); }
    }
  }

  lemma ConstraintsSpaced(nums: Numbers, d: Bytes, at: nat, joints: nat, list: seq<Constraint>)
    ensures ListLies(nums, d, at, joints, list)
       <==> Spaced(ConstraintPlace(nums, d, joints), CONSTRAINT_SIZE, at, list)
  {
    if ListLies(nums, d, at, joints, list) {
      forall k | 0 <= k < |list| ensures ConstraintPlace(nums, d, joints)(at + CONSTRAINT_SIZE * k, list[k]) {
        assert ConstraintLies(nums, d, at + CONSTRAINT_SIZE * k, joints, list[k]);
      }
    }
    if Spaced(ConstraintPlace(nums, d, joints), CONSTRAINT_SIZE, at, list) {
      forall k | 0 <= k < |list| ensures ConstraintLies(nums, d, at + CONSTRAINT_SIZE * k, joints, list[k]) {
        assert ConstraintPlace(nums, d, joints)(at + CONSTRAINT_SIZE * k, list[k]);
      }
    }
  }

  lemma ConstraintListIs(nums: Numbers, d: Bytes, at: nat, joints: nat, n: nat, list: seq<Constraint>, end: nat)
    ensures ConstraintList(nums, d, at, joints, n, []) == Ok((list, end))
       <==> |list| == n && ListLies(nums, d, at, joints, list) && end == at + CONSTRAINT_SIZE * n
  {
    var one, lies := ConstraintReader(nums, d, joints), ConstraintPlace(nums, d, joints);
    forall p ensures ReadsAt(one, lies, EachTakes(CONSTRAINT_SIZE), p) { ConstraintReads(nums, d, joints, p); }
    ConstraintsAreMany(nums, d, at, joints, n, []);
    ManyAre(one, lies, EachTakes(CONSTRAINT_SIZE), at, n, list, end);
    EvenlySpaced(lies, EachTakes(CONSTRAINT_SIZE), CONSTRAINT_SIZE, at, list);
    ConstraintsSpaced(nums, d, at, joints, list);
  }

  lemma ConstraintsAre(nums: Numbers, d: Bytes, at: nat, joints: nat, list: seq<Constraint>, end: nat)
    ensures Constraints(nums, d, at, joints) == Ok((list, end)) <==> ConstraintsLie(nums, d, at, joints, list, end)
  {
    I32Is(d, at, NumConstraints);
    if Holds(d, at, 4) && 0 <= I32At(d, at) <= 10 {
      ConstraintListIs(nums, d, at + 4, joints, I32At(d, at), list, end);
    }
  }

  // ---------------------------------------------------------------------------------
  // The whole file.

  lemma VersionIsRead(d: Bytes, legacy: bool, end: nat)
    ensures ReadVersion(d, 0) == Ok((legacy, end)) <==> VersionIs(d, legacy) && end == 4
  {
    U16Is(d, 0, Version);
    U16Is(d, 2, SubVersion);
  }

  lemma BasePriorityIs(d: Bytes, at: nat)
    ensures var r := ReadBasePriority(d, at);
            if Holds(d, at, 4) && I32At(d, at) >= -1
            then r == Ok((if I32At(d, at) >= 7 then 6 else I32At(d, at), at + 4)) else r.Err?
  {
    I32Is(d, at, BasePriority);
  }

  lemma DurationIs(nums: Numbers, d: Bytes, at: nat)
    ensures var r := ReadDuration(nums, d, at);
            && (r.Ok? ==> IsAt(nums, d, at, r.value.0) && r.value.0 <= 60.0 && r.value.1 == at + 4)
            && forall x :: IsAt(nums, d, at, x) && x <= 60.0 ==> r == Ok((x, at + 4))
  {
    U32Is(d, at, Duration);
  }

  lemma HeaderIs(nums: Numbers, d: Bytes, h: Header, end: nat)
    ensures ReadHeader(nums, d, 0) == Ok((h, end)) <==> HeaderLies(nums, d, h) && end == TimingAt(h)
  {
    VersionIsRead(d, true, 4);
    VersionIsRead(d, false, 4);
    var version := ReadVersion(d, 0);
    if version.Ok? { VersionIsRead(d, version.value.0, version.value.1); }
    BasePriorityIs(d, 4);
    DurationIs(nums, d, 8);
    TextIs(d, 12, EmoteName);
  }

  lemma TimingIs(nums: Numbers, d: Bytes, at: nat, t: Timing, end: nat)
    ensures ReadTiming(nums, d, at) == Ok((t, end)) <==> TimingLies(nums, d, at, t) && end == at + 24
  {
    FiniteIs(nums, d, at, LoopIn);
    FiniteIs(nums, d, at + 4, LoopOut);
    I32Is(d, at + 8, Loop);
    FiniteIs(nums, d, at + 12, EaseIn);
    FiniteIs(nums, d, at + 16, EaseOut);
    U32Is(d, at + 20, HandPoseField);
  }

  /** The joints and constraints of a body at `at`. */
  ghost predicate BodyLies(nums: Numbers, d: Bytes, h: Header, at: nat, joints: seq<Joint>, list: seq<Constraint>,
                           end: nat)
  {
    && Holds(d, at, 4) && U32At(d, at) == |joints| && 1 <= |joints| <= 216
    && JointsLie(nums, d, h, at + 4, joints)
    && ConstraintsLie(nums, d, JointAt(h, at + 4, joints, |joints|), |joints|, list, end)
  }

  lemma BodyIs(nums: Numbers, d: Bytes, h: Header, at: nat, joints: seq<Joint>, list: seq<Constraint>, end: nat)
    ensures ReadBody(nums, d, at, h) == Ok(((joints, list), end)) <==> BodyLies(nums, d, h, at, joints, list, end)
  {
    U32Is(d, at, NumJoints);
    if Holds(d, at, 4) && 1 <= U32At(d, at) <= 216 {
      var n, r := U32At(d, at), Joints(nums, d, at + 4, h, U32At(d, at), []);
      if r.Ok? { JointsAre(nums, d, at + 4, h, n, joints, r.value.1); }
      JointsAre(nums, d, at + 4, h, n, joints, JointAt(h, at + 4, joints, |joints|));
      ConstraintsAre(nums, d, JointAt(h, at + 4, joints, |joints|), n, list, end);
    }
  }

  lemma LaidOutIsRead(nums: Numbers, d: Bytes, m: Motion, end: nat)
    requires LaidOut(nums, d, m, end)
    ensures ReadMotion(nums, d) == Ok((m, end))
  {
    var timingAt := TimingAt(m.header);
    HeaderIs(nums, d, m.header, timingAt);
    TimingIs(nums, d, timingAt, m.timing, timingAt + 24);
    BodyIs(nums, d, m.header, timingAt + 24, m.joints, m.constraints, end);
  }

  lemma ReadIsLaidOut(nums: Numbers, d: Bytes, r: Read<Motion>)
    requires r == ReadMotion(nums, d) && r.Ok?
    ensures LaidOut(nums, d, r.value.0, r.value.1)
  {
    var m, header := r.value.0, ReadHeader(nums, d, 0).value;
    var timing := ReadTiming(nums, d, header.1).value;
    HeaderIs(nums, d, header.0, header.1);
    TimingIs(nums, d, header.1, timing.0, timing.1);
    BodyIs(nums, d, header.0, timing.1, m.joints, m.constraints, r.value.1);
  }

  /** A file is accepted as a motion exactly if it is laid out as that motion. */
  lemma MotionIsLaidOut(nums: Numbers, d: Bytes, m: Motion, end: nat)
    ensures ReadMotion(nums, d) == Ok((m, end)) <==> LaidOut(nums, d, m, end)
  {
    if LaidOut(nums, d, m, end) { LaidOutIsRead(nums, d, m, end); }
    if ReadMotion(nums, d).Ok? { ReadIsLaidOut(nums, d, ReadMotion(nums, d)); }
  }

  /** The file begins with the motion `m`. */
  ghost predicate BeginsWith(nums: Numbers, d: Bytes, m: Motion) { exists end :: LaidOut(nums, d, m, end) }

  lemma AcceptedExactlyWhen(nums: Numbers, d: Bytes, m: Motion)
    ensures BeginsWith(nums, d, m) <==> ReadMotion(nums, d).Ok? && ReadMotion(nums, d).value.0 == m
  {
    if ReadMotion(nums, d).Ok? { MotionIsLaidOut(nums, d, m, ReadMotion(nums, d).value.1); }
    if BeginsWith(nums, d, m) {
      var end :| LaidOut(nums, d, m, end);
      MotionIsLaidOut(nums, d, m, end);
    }
  }

  // ---------------------------------------------------------------------------------
  // Rotation keys.

  /** Where rotation key `k` of joint `j` of a motion begins. */
  function KeyAt(m: Motion, j: nat, k: nat): nat
    requires j < |m.joints|
  {
    RotationsOf(JointAt(m.header, FirstJoint(m.header), m.joints, j), m.joints[j]) + KeySize(m.header) * k
  }

  /** Every rotation key of an accepted motion is what the file has at the place of that key. */
  lemma RotationKeysAreInPlace(nums: Numbers, d: Bytes, m: Motion, j: nat, k: nat)
    requires ReadMotion(nums, d).Ok? && m == ReadMotion(nums, d).value.0
    requires j < |m.joints| && k < |m.joints[j].rotations|
    ensures RotationLies(nums, d, m.header, KeyAt(m, j, k), m.joints[j].rotations[k])
  {
    MotionIsLaidOut(nums, d, m, ReadMotion(nums, d).value.1);
    assert JointLies(nums, d, m.header, JointAt(m.header, FirstJoint(m.header), m.joints, j), m.joints[j]);
  }

  /** The three numbers behind the time of a new file's key at `at`. */
  function Stored(d: Bytes, at: nat): (nat, nat, nat)
    requires Holds(d, at, 8)
  {
    ThreeAt(d, at + 2)
  }

  /** A key of a new file is completed from the numbers stored in it. */
  lemma KeyIsCompleted(nums: Numbers, d: Bytes, h: Header, at: nat, key: RotationKey)
    requires !h.legacy && RotationLies(nums, d, h, at, key)
    ensures Holds(d, at, 8) && SixteenBit(Stored(d, at))
    ensures key.rotation == nums.complete(Spread(Stored(d, at), -1.0, 1.0))
  {
    SpreadIsPortions(Stored(d, at), -1.0, 1.0);
  }
}

/** The quaternions of the motion decoder: the product, Euler angles, completion, and the rotations they make. */
module Quaternions {
  import opened MotionFormat
  import opened MotionLayout
  import opened Vectors
  import opened Wrappers

  /** Sine, cosine and square root, and one degree in radians. */
  datatype Calculus = Calculus(sin: real -> real, cos: real -> real, root: real -> real, degree: real)

  ghost predicate Lawful(c: Calculus) {
    && (forall a :: c.sin(a) * c.sin(a) + c.cos(a) * c.cos(a) == 1.0)
    && (forall x | x > 0.0 :: c.root(x) * c.root(x) == x)
  }

  function Norm(q: Quat): real { q.x * q.x + q.y * q.y + q.z * q.z + q.w * q.w }

  function Length(v: Vec3): real { v.x * v.x + v.y * v.y + v.z * v.z }

  /** The product, the left factor applied first. */
  function Multiply(a: Quat, b: Quat): Quat {
    Quat(b.w * a.x + b.x * a.w + b.y * a.z - b.z * a.y,
         b.w * a.y + b.y * a.w + b.z * a.x - b.x * a.z,
         b.w * a.z + b.z * a.w + b.x * a.y - b.y * a.x,
         b.w * a.w - b.x * a.x - b.y * a.y - b.z * a.z)
  }

  function AxisQuaternion(c: Calculus, axis: Vec3, angle: real): Quat {
    var s := c.sin(angle * 0.5);
    Quat(axis.x * s, axis.y * s, axis.z * s, c.cos(angle * 0.5))
  }

  function Radians(c: Calculus, degrees: real): real { degrees * c.degree }

  function AboutX(c: Calculus, degrees: real): Quat { AxisQuaternion(c, Vec3(1.0, 0.0, 0.0), Radians(c, degrees)) }

  function AboutY(c: Calculus, degrees: real): Quat { AxisQuaternion(c, Vec3(0.0, 1.0, 0.0), Radians(c, degrees)) }

  function AboutZ(c: Calculus, degrees: real): Quat { AxisQuaternion(c, Vec3(0.0, 0.0, 1.0), Radians(c, degrees)) }

  /** The rotation of three angles in degrees, composed in the order z, y, x. */
  function FromEuler(c: Calculus, v: Vec3): Quat {
    Multiply(Multiply(AboutZ(c, v.z), AboutY(c, v.y)), AboutX(c, v.x))
  }

  // ---------------------------------------------------------------------------------
  // What the quaternions do to a vector.

  /** The vector turned by the quaternion. */
  function Turned(q: Quat, v: Vec3): Vec3 {
    var dot, scale := q.x * v.x + q.y * v.y + q.z * v.z, q.w * q.w - (q.x * q.x + q.y * q.y + q.z * q.z);
    Vec3(scale * v.x + 2.0 * dot * q.x + 2.0 * q.w * (q.y * v.z - q.z * v.y),
         scale * v.y + 2.0 * dot * q.y + 2.0 * q.w * (q.z * v.x - q.x * v.z),
         scale * v.z + 2.0 * dot * q.z + 2.0 * q.w * (q.x * v.y - q.y * v.x))
  }

  function Conjugate(q: Quat): Quat { Quat(-q.x, -q.y, -q.z, q.w) }

  function Pure(v: Vec3): Quat { Quat(v.x, v.y, v.z, 0.0) }

  lemma Same(c: real, m: real, p: real)
    requires m == p
    ensures c * m == c * p
  {
  }

  lemma AssociativeAxis(a0: real, a1: real, a2: real, a3: real, b0: real, b1: real, b2: real, b3: real, c0: real,
                        c1: real, c2: real, c3: real, m0: real, m1: real, m2: real, m3: real, n0: real, n1: real,
                        n2: real, n3: real)
    requires m0 == b3 * a0 + b0 * a3 + b1 * a2 - b2 * a1 && m1 == b3 * a1 + b1 * a3 + b2 * a0 - b0 * a2
    requires m2 == b3 * a2 + b2 * a3 + b0 * a1 - b1 * a0 && m3 == b3 * a3 - b0 * a0 - b1 * a1 - b2 * a2
    requires n0 == c3 * b0 + c0 * b3 + c1 * b2 - c2 * b1 && n1 == c3 * b1 + c1 * b3 + c2 * b0 - c0 * b2
    requires n2 == c3 * b2 + c2 * b3 + c0 * b1 - c1 * b0 && n3 == c3 * b3 - c0 * b0 - c1 * b1 - c2 * b2
    ensures c3 * m0 + c0 * m3 + c1 * m2 - c2 * m1 == n3 * a0 + n0 * a3 + n1 * a2 - n2 * a1
  {
    Same(c3, m0, b3 * a0 + b0 * a3 + b1 * a2 - b2 * a1);
    Same(c2, m1, b3 * a1 + b1 * a3 + b2 * a0 - b0 * a2);
    Same(c1, m2, b3 * a2 + b2 * a3 + b0 * a1 - b1 * a0);
    Same(c0, m3, b3 * a3 - b0 * a0 - b1 * a1 - b2 * a2);
    Same(a3, n0, c3 * b0 + c0 * b3 + c1 * b2 - c2 * b1);
    Same(a2, n1, c3 * b1 + c1 * b3 + c2 * b0 - c0 * b2);
    Same(a1, n2, c3 * b2 + c2 * b3 + c0 * b1 - c1 * b0);
    Same(a0, n3, c3 * b3 - c0 * b0 - c1 * b1 - c2 * b2);
  }

  lemma AssociativePart(a0: real, a1: real, a2: real, a3: real, b0: real, b1: real, b2: real, b3: real, c0: real,
                        c1: real, c2: real, c3: real, m0: real, m1: real, m2: real, m3: real, n0: real, n1: real,
                        n2: real, n3: real)
    requires m0 == b3 * a0 + b0 * a3 + b1 * a2 - b2 * a1 && m1 == b3 * a1 + b1 * a3 + b2 * a0 - b0 * a2
    requires m2 == b3 * a2 + b2 * a3 + b0 * a1 - b1 * a0 && m3 == b3 * a3 - b0 * a0 - b1 * a1 - b2 * a2
    requires n0 == c3 * b0 + c0 * b3 + c1 * b2 - c2 * b1 && n1 == c3 * b1 + c1 * b3 + c2 * b0 - c0 * b2
    requires n2 == c3 * b2 + c2 * b3 + c0 * b1 - c1 * b0 && n3 == c3 * b3 - c0 * b0 - c1 * b1 - c2 * b2
    ensures c3 * m3 - c0 * m0 - c1 * m1 - c2 * m2 == n3 * a3 - n0 * a0 - n1 * a1 - n2 * a2
  {
    Same(c0, m0, b3 * a0 + b0 * a3 + b1 * a2 - b2 * a1);
    Same(c1, m1, b3 * a1 + b1 * a3 + b2 * a0 - b0 * a2);
    Same(c2, m2, b3 * a2 + b2 * a3 + b0 * a1 - b1 * a0);
    Same(c3, m3, b3 * a3 - b0 * a0 - b1 * a1 - b2 * a2);
    Same(a0, n0, c3 * b0 + c0 * b3 + c1 * b2 - c2 * b1);
    Same(a1, n1, c3 * b1 + c1 * b3 + c2 * b0 - c0 * b2);
    Same(a2, n2, c3 * b2 + c2 * b3 + c0 * b1 - c1 * b0);
    Same(a3, n3, c3 * b3 - c0 * b0 - c1 * b1 - c2 * b2);
  }

  /** `m` is the product, told by its parts. */
  predicate IsProduct(a: Quat, b: Quat, m: Quat) {
    && m.x == b.w * a.x + b.x * a.w + b.y * a.z - b.z * a.y
    && m.y == b.w * a.y + b.y * a.w + b.z * a.x - b.x * a.z
    && m.z == b.w * a.z + b.z * a.w + b.x * a.y - b.y * a.x
    && m.w == b.w * a.w - b.x * a.x - b.y * a.y - b.z * a.z
  }

  lemma MultiplyIsProduct(a: Quat, b: Quat)
    ensures IsProduct(a, b, Multiply(a, b))
  {
  }

  lemma AssociativeX(a: Quat, b: Quat, c: Quat, m: Quat, n: Quat)
    requires IsProduct(a, b, m) && IsProduct(b, c, n)
    ensures c.w * m.x + c.x * m.w + c.y * m.z - c.z * m.y == n.w * a.x + n.x * a.w + n.y * a.z - n.z * a.y
  {
    AssociativeAxis(a.x, a.y, a.z, a.w, b.x, b.y, b.z, b.w, c.x, c.y, c.z, c.w, m.x, m.y, m.z, m.w, n.x, n.y, n.z, n.w);
  }

  lemma AssociativeY(a: Quat, b: Quat, c: Quat, m: Quat, n: Quat)
    requires IsProduct(a, b, m) && IsProduct(b, c, n)
    ensures c.w * m.y + c.y * m.w + c.z * m.x - c.x * m.z == n.w * a.y + n.y * a.w + n.z * a.x - n.x * a.z
  {
    AssociativeAxis(a.y, a.z, a.x, a.w, b.y, b.z, b.x, b.w, c.y, c.z, c.x, c.w, m.y, m.z, m.x, m.w, n.y, n.z, n.x, n.w);
  }

  lemma AssociativeZ(a: Quat, b: Quat, c: Quat, m: Quat, n: Quat)
    requires IsProduct(a, b, m) && IsProduct(b, c, n)
    ensures c.w * m.z + c.z * m.w + c.x * m.y - c.y * m.x == n.w * a.z + n.z * a.w + n.x * a.y - n.y * a.x
  {
    AssociativeAxis(a.z, a.x, a.y, a.w, b.z, b.x, b.y, b.w, c.z, c.x, c.y, c.w, m.z, m.x, m.y, m.w, n.z, n.x, n.y, n.w);
  }

  lemma AssociativeW(a: Quat, b: Quat, c: Quat, m: Quat, n: Quat)
    requires IsProduct(a, b, m) && IsProduct(b, c, n)
    ensures c.w * m.w - c.x * m.x - c.y * m.y - c.z * m.z == n.w * a.w - n.x * a.x - n.y * a.y - n.z * a.z
  {
    AssociativePart(a.x, a.y, a.z, a.w, b.x, b.y, b.z, b.w, c.x, c.y, c.z, c.w, m.x, m.y, m.z, m.w, n.x, n.y, n.z, n.w);
  }

  lemma ProductsAgree(a: Quat, b: Quat, c: Quat, m: Quat, n: Quat)
    requires IsProduct(a, b, m) && IsProduct(b, c, n)
    ensures Multiply(m, c) == Multiply(a, n)
  {
    AssociativeX(a, b, c, m, n);
    AssociativeY(a, b, c, m, n);
    AssociativeZ(a, b, c, m, n);
    AssociativeW(a, b, c, m, n);
  }

  lemma Associative(a: Quat, b: Quat, c: Quat)
    ensures Multiply(Multiply(a, b), c) == Multiply(a, Multiply(b, c))
  {
    MultiplyIsProduct(a, b);
    MultiplyIsProduct(b, c);
    ProductsAgree(a, b, c, Multiply(a, b), Multiply(b, c));
  }

  lemma Negated(a: real, b: real, c: real, d: real)
    requires c == -a && d == -b
    ensures c * d == a * b && a * d == -(a * b) && c * b == -(a * b) && b * c == -(a * b)
  {
  }

  lemma ConjugateTimes(q: Quat, v: Vec3)
    ensures Multiply(Conjugate(q), Pure(v))
         == Quat(v.x * q.w - v.y * q.z + v.z * q.y, v.y * q.w - v.z * q.x + v.x * q.z,
                 v.z * q.w - v.x * q.y + v.y * q.x, v.x * q.x + v.y * q.y + v.z * q.z)
  {
    Negated(v.x, q.x, -v.x, -q.x);
    Negated(v.x, q.y, -v.x, -q.y);
    Negated(v.x, q.z, -v.x, -q.z);
    Negated(v.y, q.x, -v.y, -q.x);
    Negated(v.y, q.y, -v.y, -q.y);
    Negated(v.y, q.z, -v.y, -q.z);
    Negated(v.z, q.x, -v.z, -q.x);
    Negated(v.z, q.y, -v.z, -q.y);
    Negated(v.z, q.z, -v.z, -q.z);
  }

  /** One axis of what `m`, the conjugate times the vector, and the quaternion come to. */
  lemma TurnedAxis(x: real, y: real, z: real, w: real, a: real, b: real, c: real, mx: real, my: real, mz: real,
                   mw: real)
    requires mx == a * w - b * z + c * y && my == b * w - c * x + a * z && mz == c * w - a * y + b * x
    requires mw == a * x + b * y + c * z
    ensures w * mx + x * mw + y * mz - z * my
         == (w * w - (x * x + y * y + z * z)) * a + 2.0 * (x * a + y * b + z * c) * x + 2.0 * w * (y * c - z * b)
  {
  }

  lemma TurnedPart(x: real, y: real, z: real, w: real, a: real, b: real, c: real, mx: real, my: real, mz: real,
                   mw: real)
    requires mx == a * w - b * z + c * y && my == b * w - c * x + a * z && mz == c * w - a * y + b * x
    requires mw == a * x + b * y + c * z
    ensures w * mw - x * mx - y * my - z * mz == 0.0
  {
  }

  lemma TurnedX(q: Quat, v: Vec3, m: Quat)
    requires m == Multiply(Conjugate(q), Pure(v))
    ensures Multiply(m, q).x == Turned(q, v).x
  {
    ConjugateTimes(q, v);
    TurnedAxis(q.x, q.y, q.z, q.w, v.x, v.y, v.z, m.x, m.y, m.z, m.w);
  }

  lemma TurnedY(q: Quat, v: Vec3, m: Quat)
    requires m == Multiply(Conjugate(q), Pure(v))
    ensures Multiply(m, q).y == Turned(q, v).y
  {
    ConjugateTimes(q, v);
    TurnedAxis(q.y, q.z, q.x, q.w, v.y, v.z, v.x, m.y, m.z, m.x, m.w);
  }

  lemma TurnedZ(q: Quat, v: Vec3, m: Quat)
    requires m == Multiply(Conjugate(q), Pure(v))
    ensures Multiply(m, q).z == Turned(q, v).z
  {
    ConjugateTimes(q, v);
    TurnedAxis(q.z, q.x, q.y, q.w, v.z, v.x, v.y, m.z, m.x, m.y, m.w);
  }

  lemma TurnedW(q: Quat, v: Vec3, m: Quat)
    requires m == Multiply(Conjugate(q), Pure(v))
    ensures Multiply(m, q).w == 0.0
  {
    ConjugateTimes(q, v);
    TurnedPart(q.x, q.y, q.z, q.w, v.x, v.y, v.z, m.x, m.y, m.z, m.w);
  }

  lemma TurnedIsProduct(q: Quat, v: Vec3)
    ensures Multiply(Multiply(Conjugate(q), Pure(v)), q) == Pure(Turned(q, v))
  {
    var m := Multiply(Conjugate(q), Pure(v));
    TurnedX(q, v, m);
    TurnedY(q, v, m);
    TurnedZ(q, v, m);
    TurnedW(q, v, m);
  }

  lemma ConjugateAxis(a0: real, a1: real, a2: real, a3: real, b0: real, b1: real, b2: real, b3: real, c0: real,
                      c1: real, c2: real, d0: real, d1: real, d2: real)
    requires c0 == -a0 && c1 == -a1 && c2 == -a2 && d0 == -b0 && d1 == -b1 && d2 == -b2
    ensures -(b3 * a0 + b0 * a3 + b1 * a2 - b2 * a1) == a3 * d0 + c0 * b3 + c1 * d2 - c2 * d1
  {
    Negated(a3, b0, -a3, d0);
    Negated(a0, b3, c0, -b3);
    Negated(a1, b2, c1, d2);
    Negated(a2, b1, c2, d1);
  }

  lemma ConjugateX(a: Quat, b: Quat, c: Quat, d: Quat)
    requires c == Conjugate(a) && d == Conjugate(b)
    ensures -Multiply(a, b).x == Multiply(d, c).x
  {
    ConjugateAxis(a.x, a.y, a.z, a.w, b.x, b.y, b.z, b.w, c.x, c.y, c.z, d.x, d.y, d.z);
  }

  lemma ConjugateY(a: Quat, b: Quat, c: Quat, d: Quat)
    requires c == Conjugate(a) && d == Conjugate(b)
    ensures -Multiply(a, b).y == Multiply(d, c).y
  {
    ConjugateAxis(a.y, a.z, a.x, a.w, b.y, b.z, b.x, b.w, c.y, c.z, c.x, d.y, d.z, d.x);
  }

  lemma ConjugateZ(a: Quat, b: Quat, c: Quat, d: Quat)
    requires c == Conjugate(a) && d == Conjugate(b)
    ensures -Multiply(a, b).z == Multiply(d, c).z
  {
    ConjugateAxis(a.z, a.x, a.y, a.w, b.z, b.x, b.y, b.w, c.z, c.x, c.y, d.z, d.x, d.y);
  }

  lemma ConjugateW(a: Quat, b: Quat, c: Quat, d: Quat)
    requires c == Conjugate(a) && d == Conjugate(b)
    ensures Multiply(a, b).w == Multiply(d, c).w
  {
    Negated(a.x, b.x, c.x, d.x);
    Negated(a.y, b.y, c.y, d.y);
    Negated(a.z, b.z, c.z, d.z);
  }

  lemma ConjugateOfProduct(a: Quat, b: Quat)
    ensures Conjugate(Multiply(a, b)) == Multiply(Conjugate(b), Conjugate(a))
  {
    var c, d := Conjugate(a), Conjugate(b);
    ConjugateX(a, b, c, d);
    ConjugateY(a, b, c, d);
    ConjugateZ(a, b, c, d);
    ConjugateW(a, b, c, d);
  }

  /** A product turns by its left factor first. */
  lemma ProductTurnsLeftFirst(a: Quat, b: Quat, v: Vec3)
    ensures Turned(Multiply(a, b), v) == Turned(b, Turned(a, v))
  {
    var ca, cb, p := Conjugate(a), Conjugate(b), Pure(v);
    TurnedIsProduct(Multiply(a, b), v);
    ConjugateOfProduct(a, b);
    Associative(cb, ca, p);
    Associative(Multiply(cb, Multiply(ca, p)), a, b);
    Associative(cb, Multiply(ca, p), a);
    TurnedIsProduct(a, v);
    TurnedIsProduct(b, Turned(a, v));
  }

  /** The laws of the double angle. */
  predicate DoublesAt(c: Calculus, a: real) {
    c.sin(a + a) == 2.0 * (c.sin(a) * c.cos(a)) && c.cos(a + a) == c.cos(a) * c.cos(a) - c.sin(a) * c.sin(a)
  }

  ghost predicate Doubles(c: Calculus) { forall a :: DoublesAt(c, a) }

  lemma HalfOf(c: Calculus, angle: real, half: real, s: real, k: real)
    requires Lawful(c) && Doubles(c) && half == angle * 0.5 && s == c.sin(half) && k == c.cos(half)
    ensures c.sin(angle) == 2.0 * (s * k) && c.cos(angle) == k * k - s * s && s * s + k * k == 1.0
  {
    assert half + half == angle && DoublesAt(c, half);
  }

  lemma AxesAre(c: Calculus, angle: real, s: real, k: real)
    requires s == c.sin(angle * 0.5) && k == c.cos(angle * 0.5)
    ensures AxisQuaternion(c, Vec3(0.0, 0.0, 1.0), angle) == Quat(0.0, 0.0, s, k)
    ensures AxisQuaternion(c, Vec3(1.0, 0.0, 0.0), angle) == Quat(s, 0.0, 0.0, k)
    ensures AxisQuaternion(c, Vec3(0.0, 1.0, 0.0), angle) == Quat(0.0, s, 0.0, k)
  {
  }

  lemma AboutZIs(c: Calculus, degrees: real, angle: real)
    requires angle == Radians(c, degrees)
    ensures AboutZ(c, degrees) == AxisQuaternion(c, Vec3(0.0, 0.0, 1.0), angle)
  {
  }

  lemma AboutXIs(c: Calculus, degrees: real, angle: real)
    requires angle == Radians(c, degrees)
    ensures AboutX(c, degrees) == AxisQuaternion(c, Vec3(1.0, 0.0, 0.0), angle)
  {
  }

  lemma AboutYIs(c: Calculus, degrees: real, angle: real)
    requires angle == Radians(c, degrees)
    ensures AboutY(c, degrees) == AxisQuaternion(c, Vec3(0.0, 1.0, 0.0), angle)
  {
  }

  lemma PlaneTurns(s: real, k: real, a: real, b: real, n: real, sin: real, cos: real)
    requires s * s + k * k == 1.0 && sin == 2.0 * (s * k) && cos == k * k - s * s
    ensures cos * a + 2.0 * k * (0.0 - s * b) == cos * a - sin * b
    ensures cos * b + 2.0 * k * (s * a) == sin * a + cos * b
    ensures cos * n + 2.0 * (s * n) * s == n
  {
    assert 2.0 * k * (0.0 - s * b) == -(2.0 * (s * k) * b);
    assert 2.0 * k * (s * a) == 2.0 * (s * k) * a;
    assert cos * n + 2.0 * (s * n) * s == (k * k + s * s) * n;
  }

  lemma TurnsAboutZ(q: Quat, s: real, k: real, v: Vec3, sin: real, cos: real)
    requires q == Quat(0.0, 0.0, s, k) && s * s + k * k == 1.0 && sin == 2.0 * (s * k) && cos == k * k - s * s
    ensures Turned(q, v) == Vec3(cos * v.x - sin * v.y, sin * v.x + cos * v.y, v.z)
  {
    PlaneTurns(s, k, v.x, v.y, v.z, sin, cos);
  }

  lemma TurnsAboutX(q: Quat, s: real, k: real, v: Vec3, sin: real, cos: real)
    requires q == Quat(s, 0.0, 0.0, k) && s * s + k * k == 1.0 && sin == 2.0 * (s * k) && cos == k * k - s * s
    ensures Turned(q, v) == Vec3(v.x, cos * v.y - sin * v.z, sin * v.y + cos * v.z)
  {
    PlaneTurns(s, k, v.y, v.z, v.x, sin, cos);
  }

  lemma TurnsAboutY(q: Quat, s: real, k: real, v: Vec3, sin: real, cos: real)
    requires q == Quat(0.0, s, 0.0, k) && s * s + k * k == 1.0 && sin == 2.0 * (s * k) && cos == k * k - s * s
    ensures Turned(q, v) == Vec3(cos * v.x + sin * v.z, v.y, cos * v.z - sin * v.x)
  {
    PlaneTurns(s, k, v.z, v.x, v.y, sin, cos);
  }

  /** An angle about z turns x towards y. */
  lemma AboutZTurns(c: Calculus, degrees: real, angle: real, v: Vec3)
    requires Lawful(c) && Doubles(c) && angle == Radians(c, degrees)
    ensures var s, k := c.sin(angle), c.cos(angle);
            Turned(AboutZ(c, degrees), v) == Vec3(k * v.x - s * v.y, s * v.x + k * v.y, v.z)
  {
    var half, other := c.sin(angle * 0.5), c.cos(angle * 0.5);
    HalfOf(c, angle, angle * 0.5, half, other);
    AxesAre(c, angle, half, other);
    AboutZIs(c, degrees, angle);
    TurnsAboutZ(AboutZ(c, degrees), half, other, v, c.sin(angle), c.cos(angle));
  }

  /** An angle about x turns y towards z. */
  lemma AboutXTurns(c: Calculus, degrees: real, angle: real, v: Vec3)
    requires Lawful(c) && Doubles(c) && angle == Radians(c, degrees)
    ensures var s, k := c.sin(angle), c.cos(angle);
            Turned(AboutX(c, degrees), v) == Vec3(v.x, k * v.y - s * v.z, s * v.y + k * v.z)
  {
    var half, other := c.sin(angle * 0.5), c.cos(angle * 0.5);
    HalfOf(c, angle, angle * 0.5, half, other);
    AxesAre(c, angle, half, other);
    AboutXIs(c, degrees, angle);
    TurnsAboutX(AboutX(c, degrees), half, other, v, c.sin(angle), c.cos(angle));
  }

  /** An angle about y turns z towards x. */
  lemma AboutYTurns(c: Calculus, degrees: real, angle: real, v: Vec3)
    requires Lawful(c) && Doubles(c) && angle == Radians(c, degrees)
    ensures var s, k := c.sin(angle), c.cos(angle);
            Turned(AboutY(c, degrees), v) == Vec3(k * v.x + s * v.z, v.y, k * v.z - s * v.x)
  {
    var half, other := c.sin(angle * 0.5), c.cos(angle * 0.5);
    HalfOf(c, angle, angle * 0.5, half, other);
    AxesAre(c, angle, half, other);
    AboutYIs(c, degrees, angle);
    TurnsAboutY(AboutY(c, degrees), half, other, v, c.sin(angle), c.cos(angle));
  }

  /** Three angles turn a vector about z first, then about y and then about x. */
  lemma EulerTurns(c: Calculus, angles: Vec3, v: Vec3)
    ensures Turned(FromEuler(c, angles), v)
         == Turned(AboutX(c, angles.x), Turned(AboutY(c, angles.y), Turned(AboutZ(c, angles.z), v)))
  {
    var z, y, x := AboutZ(c, angles.z), AboutY(c, angles.y), AboutX(c, angles.x);
    ProductTurnsLeftFirst(Multiply(z, y), x, v);
    ProductTurnsLeftFirst(z, y, v);
  }

  /** Completes three components to a unit quaternion, if they leave room for a fourth. */
  function Complete(c: Calculus, v: Vec3): Quat {
    var t := 1.0 - Length(v);
    Quat(v.x, v.y, v.z, if t > 0.0 then c.root(t) else 0.0)
  }

  function Standard(finite: nat -> Option<real>, c: Calculus): Numbers {
    Numbers(finite, v => FromEuler(c, v), v => Complete(c, v))
  }

  /** Euler's four-square identity. */
  lemma FourSquares(a0: real, a1: real, a2: real, a3: real, b0: real, b1: real, b2: real, b3: real, x: real, y: real,
                    z: real, w: real)
    requires x == b3 * a0 + b0 * a3 + b1 * a2 - b2 * a1 && y == b3 * a1 + b1 * a3 + b2 * a0 - b0 * a2
    requires z == b3 * a2 + b2 * a3 + b0 * a1 - b1 * a0 && w == b3 * a3 - b0 * a0 - b1 * a1 - b2 * a2
    ensures x * x + y * y + z * z + w * w
         == (a0 * a0 + a1 * a1 + a2 * a2 + a3 * a3) * (b0 * b0 + b1 * b1 + b2 * b2 + b3 * b3)
  {
  }

  lemma NormOfParts(a: Quat, b: Quat, m: Quat)
    requires m.x == b.w * a.x + b.x * a.w + b.y * a.z - b.z * a.y
             && m.y == b.w * a.y + b.y * a.w + b.z * a.x - b.x * a.z
    requires m.z == b.w * a.z + b.z * a.w + b.x * a.y - b.y * a.x
             && m.w == b.w * a.w - b.x * a.x - b.y * a.y - b.z * a.z
    ensures Norm(m) == Norm(a) * Norm(b)
  {
    FourSquares(a.x, a.y, a.z, a.w, b.x, b.y, b.z, b.w, m.x, m.y, m.z, m.w);
  }

  /** The product's norm is the product of the norms. */
  lemma NormOfProduct(a: Quat, b: Quat)
    ensures Norm(Multiply(a, b)) == Norm(a) * Norm(b)
  {
    NormOfParts(a, b, Multiply(a, b));
  }

  lemma AboutIsUnit(c: Calculus, degrees: real)
    requires Lawful(c)
    ensures Norm(AboutX(c, degrees)) == Norm(AboutY(c, degrees)) == Norm(AboutZ(c, degrees)) == 1.0
  {
    var half := Radians(c, degrees) * 0.5;
    assert c.sin(half) * c.sin(half) + c.cos(half) * c.cos(half) == 1.0;
  }

  lemma ProductOfUnits(x: Quat, y: Quat, z: Quat)
    requires Norm(x) == 1.0 && Norm(y) == 1.0 && Norm(z) == 1.0
    ensures Norm(Multiply(Multiply(z, y), x)) == 1.0
  {
    NormOfProduct(z, y);
    NormOfProduct(Multiply(z, y), x);
  }

  /** Any three angles make a unit quaternion. */
  lemma EulerIsUnit(c: Calculus, v: Vec3)
    requires Lawful(c)
    ensures Norm(FromEuler(c, v)) == 1.0
  {
    AboutIsUnit(c, v.x);
    AboutIsUnit(c, v.y);
    AboutIsUnit(c, v.z);
    ProductOfUnits(AboutX(c, v.x), AboutY(c, v.y), AboutZ(c, v.z));
  }

  /** A completed quaternion is a unit exactly if its three components leave room for a fourth. */
  lemma CompletedNorm(c: Calculus, v: Vec3)
    requires Lawful(c)
    ensures Norm(Complete(c, v)) == if Length(v) < 1.0 then 1.0 else Length(v)
    ensures Norm(Complete(c, v)) == 1.0 <==> Length(v) <= 1.0
    ensures var q := Complete(c, v); q.x == v.x && q.y == v.y && q.z == v.z
  {
  }

  /** A rotation completed from the stored numbers `v`. */
  predicate CompletedFrom(c: Calculus, v: (nat, nat, nat), q: Quat) {
    q == Complete(c, Spread(v, -1.0, 1.0)) && (Norm(q) == 1.0 <==> Length(Spread(v, -1.0, 1.0)) <= 1.0)
  }

  /** What the key of a file at `at` becomes: a unit in an old file, and in a new one what the three
      numbers stored there complete to, which is a unit exactly if they leave room for a fourth. */
  predicate RotationIsRight(c: Calculus, h: Header, d: Bytes, at: nat, q: Quat) {
    if h.legacy then Norm(q) == 1.0
    else Norm(q) >= 1.0 && Holds(d, at, 8) && CompletedFrom(c, Stored(d, at), q)
  }

  lemma RotationBecomesRight(finite: nat -> Option<real>, c: Calculus, h: Header, d: Bytes, at: nat, key: RotationKey)
    requires Lawful(c) && RotationLies(Standard(finite, c), d, h, at, key)
    ensures RotationIsRight(c, h, d, at, key.rotation)
  {
    if h.legacy {
      EulerIsUnit(c, Vec3(finite(U32At(d, at + 4)).value, finite(U32At(d, at + 8)).value,
                          finite(U32At(d, at + 12)).value));
    } else {
      KeyIsCompleted(Standard(finite, c), d, h, at, key);
      CompletedNorm(c, Spread(Stored(d, at), -1.0, 1.0));
    }
  }

  /** The largest stored numbers spell the components (1, 1, 1), and these a quaternion of norm three. */
  lemma LargestIsTooLong(c: Calculus)
    requires Lawful(c)
    ensures var v := (65535, 65535, 65535);
            SixteenBit(v) && Spread(v, -1.0, 1.0) == Vec3(1.0, 1.0, 1.0)
                && Norm(Complete(c, Spread(v, -1.0, 1.0))) == 3.0
  {
    CompletedNorm(c, Vec3(1.0, 1.0, 1.0));
  }

  /** Every rotation of an accepted old file is a unit quaternion; one of a new file is, exactly
      if the three numbers stored at its place leave room for a fourth, and is too long otherwise. */
  lemma DecodedRotations(finite: nat -> Option<real>, c: Calculus, d: Bytes)
    requires Lawful(c) && ReadMotion(Standard(finite, c), d).Ok?
    ensures var nums := Standard(finite, c);
            var m := ReadMotion(nums, d).value.0;
            forall j, k | 0 <= j < |m.joints| && 0 <= k < |m.joints[j].rotations| ::
              RotationIsRight(c, m.header, d, KeyAt(m, j, k), m.joints[j].rotations[k].rotation)
  {
    var nums := Standard(finite, c);
    var m := ReadMotion(nums, d).value.0;
    forall j, k | 0 <= j < |m.joints| && 0 <= k < |m.joints[j].rotations|
      ensures RotationIsRight(c, m.header, d, KeyAt(m, j, k), m.joints[j].rotations[k].rotation)
    {
      RotationKeysAreInPlace(nums, d, m, j, k);
      RotationBecomesRight(finite, c, m.header, d, KeyAt(m, j, k), m.joints[j].rotations[k]);
    }
  }
}

/**
 Blending motions at one joint: the top few by priority and recency, each filling what is left of a weight budget.
 */
module Blend {
  import opened Sequences
  import opened Vectors
  import opened Wrappers

  const MAX_JOINT_CONTRIBUTIONS := 4

  datatype Contribution = Contribution(priority: int, order: nat, weight: real, rotation: Option<Quat>,
                                       position: Option<Vec3>)

  datatype BlendedJoint = BlendedJoint(rotation: Option<Quat>, position: Option<Vec3>)

  // ---------------------------------------------------------------------------------
  // The slot order.

  /** By priority, then by recency. */
  predicate Ahead(a: Contribution, b: Contribution) {
    a.priority > b.priority || (a.priority == b.priority && a.order > b.order)
  }

  /** Behind everything it is not ahead of. */
  function Insert(s: seq<Contribution>, x: Contribution): (r: seq<Contribution>)
    ensures |r| == |s| + 1
  {
    if s == [] || !Ahead(x, s[|s| - 1]) then s + [x] else Insert(s[..|s| - 1], x) + [s[|s| - 1]]
  }

  /** The contributions in slot order, those of equal rank as they came. */
  function Ranked(s: seq<Contribution>): (r: seq<Contribution>)
    ensures |r| == |s|
  {
    if s == [] then [] else Insert(Ranked(s[..|s| - 1]), s[|s| - 1])
  }

  ghost predicate InSlotOrder(s: seq<Contribution>) {
    forall i, j | 0 <= i < j < |s| :: !Ahead(s[j], s[i])
  }

  lemma {:induction false} InsertKeepsAll(s: seq<Contribution>, x: Contribution)
    ensures multiset(Insert(s, x)) == multiset(s) + multiset{x}
  {
    if s != [] && Ahead(x, s[|s| - 1]) {
      InsertKeepsAll(s[..|s| - 1], x);
      assert s == s[..|s| - 1] + [s[|s| - 1]];
    }
  }

  lemma {:induction false} InsertKeepsOrder(s: seq<Contribution>, x: Contribution)
    requires InSlotOrder(s)
    ensures InSlotOrder(Insert(s, x))
  {
    var n := |s| - 1;
    if s != [] && Ahead(x, s[n]) {
      var front := Insert(s[..n], x);
      InsertKeepsOrder(s[..n], x);
      InsertKeepsAll(s[..n], x);
      forall i | 0 <= i < |front| ensures !Ahead(s[n], front[i]) {
        assert front[i] in multiset(front);
      }
    } else {
      assert forall i | 0 <= i < |s| :: i < n ==> !Ahead(s[n], s[i]);
    }
  }

  lemma {:induction false} RankedIsSorted(s: seq<Contribution>)
    ensures InSlotOrder(Ranked(s)) && multiset(Ranked(s)) == multiset(s)
    ensures forall i, j | 0 <= i < j < |s| ::
              var a, b := Ranked(s)[i], Ranked(s)[j];
              a.priority > b.priority || (a.priority == b.priority && a.order >= b.order)
  {
    if s != [] {
      var n := |s| - 1;
      RankedIsSorted(s[..n]);
      InsertKeepsOrder(Ranked(s[..n]), s[n]);
      InsertKeepsAll(Ranked(s[..n]), s[n]);
      assert s == s[..n] + [s[n]];
    }
    forall i, j | 0 <= i < j < |s|
      ensures var a, b := Ranked(s)[i], Ranked(s)[j];
              a.priority > b.priority || (a.priority == b.priority && a.order >= b.order)
    {
      assert !Ahead(Ranked(s)[j], Ranked(s)[i]);
    }
  }

  /** The contributions of one rank, in order. */
  function OfRank(s: seq<Contribution>, priority: int, order: nat): seq<Contribution> {
    if s == [] then []
    else
      var last := s[|s| - 1];
      OfRank(s[..|s| - 1], priority, order) + if last.priority == priority && last.order == order then [last] else []
  }

  lemma {:induction false} InsertIsStable(s: seq<Contribution>, x: Contribution, priority: int, order: nat)
    requires InSlotOrder(s)
    ensures OfRank(Insert(s, x), priority, order)
         == OfRank(s, priority, order) + if x.priority == priority && x.order == order then [x] else []
  {
    var n := |s| - 1;
    if s == [] || !Ahead(x, s[n]) {
      assert (s + [x])[..|s|] == s;
    } else {
      InsertIsStable(s[..n], x, priority, order);
      assert (Insert(s[..n], x) + [s[n]])[..|s|] == Insert(s[..n], x);
    }
  }

  /** Contributions of equal rank keep their order. */
  lemma {:induction false} RankedIsStable(s: seq<Contribution>, priority: int, order: nat)
    ensures OfRank(Ranked(s), priority, order) == OfRank(s, priority, order)
  {
    if s != [] {
      var n := |s| - 1;
      RankedIsStable(s[..n], priority, order);
      RankedIsSorted(s[..n]);
      InsertIsStable(Ranked(s[..n]), s[n], priority, order);
    }
  }

  ghost predicate DistinctRanks(s: seq<Contribution>) {
    forall i, j | 0 <= i < j < |s| :: Ahead(s[i], s[j]) || Ahead(s[j], s[i])
  }

  ghost predicate Falling(s: seq<Contribution>) {
    forall i, j | 0 <= i < j < |s| :: Ahead(s[i], s[j])
  }

  lemma HeadsAgree(a: seq<Contribution>, b: seq<Contribution>)
    requires a != [] && b != [] && Falling(a) && InSlotOrder(b)
    requires a[0] in multiset(b) && b[0] in multiset(a)
    ensures a[0] == b[0]
  {
    var j :| 0 <= j < |b| && b[j] == a[0];
    var i :| 0 <= i < |a| && a[i] == b[0];
    assert i > 0 ==> Ahead(a[0], a[i]);
    assert j > 0 ==> !Ahead(b[j], b[0]);
  }

  lemma DropHead(a: seq<Contribution>)
    requires a != []
    ensures multiset(a[1..]) == multiset(a) - multiset{a[0]} && a[0] in multiset(a) && a == [a[0]] + a[1..]
  {
    assert a == [a[0]] + a[1..];
  }

  /** A multiset has at most one strictly falling order. */
  lemma {:induction false} FallingOrderIsUnique(a: seq<Contribution>, b: seq<Contribution>)
    requires multiset(a) == multiset(b) && Falling(a) && InSlotOrder(b)
    ensures a == b
  {
    assert |a| == |multiset(a)| == |multiset(b)| == |b|;
    if a != [] {
      DropHead(a);
      DropHead(b);
      HeadsAgree(a, b);
      FallingOrderIsUnique(a[1..], b[1..]);
    }
  }

  lemma {:induction false} RanksStayDistinct(s: seq<Contribution>, t: seq<Contribution>)
    requires DistinctRanks(s) && multiset(s) == multiset(t)
    ensures DistinctRanks(t)
  {
    forall i, j | 0 <= i < j < |t| ensures Ahead(t[i], t[j]) || Ahead(t[j], t[i]) {
      if t[i] == t[j] {
        TwiceInside(t, i, j);
        OnceInside(s, t[i]);
      } else {
        assert t[i] in multiset(s) && t[j] in multiset(s);
        var a :| 0 <= a < |s| && s[a] == t[i];
        var b :| 0 <= b < |s| && s[b] == t[j];
        assert Ahead(s[a], s[b]) || Ahead(s[b], s[a]);
      }
    }
  }

  lemma TwiceInside(t: seq<Contribution>, i: nat, j: nat)
    requires i < j < |t| && t[i] == t[j]
    ensures multiset(t)[t[i]] >= 2
  {
    assert t == t[..j] + [t[j]] + t[j + 1..];
    assert t[..j][i] in multiset(t[..j]);
  }

  lemma {:induction false} OnceInside(s: seq<Contribution>, x: Contribution)
    requires DistinctRanks(s)
    ensures multiset(s)[x] <= 1
  {
    if s != [] {
      var n := |s| - 1;
      OnceInside(s[..n], x);
      assert s == s[..n] + [s[n]];
      forall i | 0 <= i < n ensures s[..n][i] != s[n] {
        assert Ahead(s[i], s[n]) || Ahead(s[n], s[i]);
      }
      assert s[n] !in multiset(s[..n]);
    }
  }

  /** With distinct ranks, the slot order does not depend on the order of the contributions. */
  lemma RankedIgnoresOrder(s: seq<Contribution>, t: seq<Contribution>)
    requires DistinctRanks(s) && multiset(s) == multiset(t)
    ensures Ranked(s) == Ranked(t)
  {
    RankedIsSorted(s);
    RankedIsSorted(t);
    RanksStayDistinct(s, Ranked(s));
    assert Falling(Ranked(s)) by {
      forall i, j | 0 <= i < j < |Ranked(s)| ensures Ahead(Ranked(s)[i], Ranked(s)[j]) {
        assert !Ahead(Ranked(s)[j], Ranked(s)[i]);
      }
    }
    FallingOrderIsUnique(Ranked(s), Ranked(t));
  }

  /** The place of `x`: behind the last element that it does not go ahead of. */
  lemma {:induction false} InsertPlace(s: seq<Contribution>, x: Contribution, j: nat)
    requires j <= |s| && (j > 0 ==> !Ahead(x, s[j - 1])) && forall k | j <= k < |s| :: Ahead(x, s[k])
    ensures Insert(s, x) == s[..j] + [x] + s[j..]
  {
    if j < |s| {
      var n := |s| - 1;
      var front, last := s[..n], s[n];
      InsertPlace(front, x, j);
      assert Insert(s, x) == Insert(front, x) + [last];
      assert front[..j] == s[..j] && front[j..] + [last] == s[j..];
      Associates(s[..j] + [x], front[j..], [last]);
    } else {
      assert s[..j] == s && s[j..] == [] && s + [x] + [] == s + [x];
    }
  }

  lemma Sunk<T>(a: seq<T>, was: seq<T>, x: T, j: nat)
    requires j <= |was| < |a| && a[j] == x
    requires (forall k | 0 <= k < j :: a[k] == was[k]) && forall k | j < k <= |was| :: a[k] == was[k - 1]
    ensures a[..|was| + 1] == was[..j] + [x] + was[j..]
  {
  }

  /** Puts `a[i]` in its place among the ranked elements before it. */
  method Sink(a: array<Contribution>, i: nat)
    requires i < a.Length
    modifies a
    ensures a[..i + 1] == Insert(old(a[..i]), old(a[i])) && a[i + 1..] == old(a[i + 1..])
  {
    var x, j := a[i], i;
    ghost var was := a[..i];
    while j > 0 && Ahead(x, a[j - 1])
      invariant 0 <= j <= i
      invariant (forall k | 0 <= k < j :: a[k] == was[k]) && forall k | j < k <= i :: a[k] == was[k - 1]
      invariant forall k | j <= k < i :: Ahead(x, was[k])
      invariant forall k | i < k < a.Length :: a[k] == old(a[k])
    {
      a[j] := a[j - 1];
      j := j - 1;
    }
    a[j] := x;
    InsertPlace(was, x, j);
    Sunk(a[..], was, x, j);
  }

  /** The stable in-place sort into slot order. */
  method SortByRank(a: array<Contribution>)
    modifies a
    ensures a[..] == Ranked(old(a[..]))
  {
    var i := 0;
    ghost var was := a[..];
    while i < a.Length
      invariant 0 <= i <= a.Length
      invariant a[..i] == Ranked(was[..i]) && a[i..] == was[i..]
    {
      assert was[..i + 1][..i] == was[..i] && a[i] == a[i..][0] == was[i];
      Sink(a, i);
      assert a[i + 1..] == was[i + 1..] by { assert was[i..][1..] == was[i + 1..]; }
      i := i + 1;
    }
    assert was[..i] == was && a[..i] == a[..];
  }

  // ---------------------------------------------------------------------------------
  // Filling the budget.

  function Min(a: real, b: real): real { if a <= b then a else b }

  /** One channel so far: its value and how much of the budget is filled. */
  datatype Channel<T> = Channel(value: Option<T>, sum: real)

  /** The first value is copied; each later one shows through what the earlier ones leave. */
  function Feed<T>(mix: (real, T, T) -> T, ch: Channel<T>, weight: real, value: T): Channel<T>
    requires weight > 0.0 && (ch.value.Some? ==> ch.sum > 0.0)
  {
    if ch.value.None? then Channel(Some(value), weight)
    else
      var sum := Min(weight + ch.sum, 1.0);
      Channel(Some(mix(ch.sum / sum, value, ch.value.value)), sum)
  }

  /** What the contributions, in slot order, make of the channel that `pick` selects. */
  function Fold<T>(mix: (real, T, T) -> T, pick: Contribution -> Option<T>, s: seq<Contribution>): (ch: Channel<T>)
    ensures ch.value.Some? ==> ch.sum > 0.0
  {
    if s == [] then Channel(None, 0.0)
    else
      var front, c := Fold(mix, pick, s[..|s| - 1]), s[|s| - 1];
      if c.weight <= 0.0 || pick(c).None? then front else Feed(mix, front, c.weight, pick(c).value)
  }

  function Lerp(fraction: real, a: Vec3, b: Vec3): Vec3 {
    Vec3(a.x + fraction * (b.x - a.x), a.y + fraction * (b.y - a.y), a.z + fraction * (b.z - a.z))
  }

  function PositionOf(c: Contribution): Option<Vec3> { c.position }

  function RotationOf(c: Contribution): Option<Quat> { c.rotation }

  function Top(s: seq<Contribution>): seq<Contribution> {
    if |s| >= MAX_JOINT_CONTRIBUTIONS then s[..MAX_JOINT_CONTRIBUTIONS] else s
  }

  /** The contributions that blend, best first. */
  function Slots(s: seq<Contribution>): seq<Contribution> { Top(Ranked(s)) }

  function PositionFold(s: seq<Contribution>): Channel<Vec3> { Fold(Lerp, PositionOf, s) }

  method BlendJoint(mix: (real, Quat, Quat) -> Quat, a: array<Contribution>) returns (joint: BlendedJoint)
    modifies a
    ensures a[..] == Ranked(old(a[..]))
    ensures joint.position == PositionFold(Slots(old(a[..]))).value
    ensures joint.rotation == Fold(mix, RotationOf, Slots(old(a[..]))).value
  {
    SortByRank(a);
    var capped := if a.Length >= MAX_JOINT_CONTRIBUTIONS then a[..MAX_JOINT_CONTRIBUTIONS] else a[..];
    var rotation: Channel<Quat> := Channel(None, 0.0);
    var position: Channel<Vec3> := Channel(None, 0.0);
    var k := 0;
    while k < |capped|
      invariant 0 <= k <= |capped|
      invariant rotation == Fold(mix, RotationOf, capped[..k]) && position == Fold(Lerp, PositionOf, capped[..k])
    {
      var c := capped[k];
      assert capped[..k + 1][..k] == capped[..k];
      if c.weight > 0.0 {
        if c.rotation.Some? {
          rotation := Feed(mix, rotation, c.weight, c.rotation.value);
        }
        if c.position.Some? {
          position := Feed(Lerp, position, c.weight, c.position.value);
        }
      }
      k := k + 1;
    }
    assert capped[..k] == capped;
    return BlendedJoint(rotation.value, position.value);
  }

  // ---------------------------------------------------------------------------------
  // What the position fold computes.

  /** Contributes to the position. */
  predicate Positions(c: Contribution) { c.weight > 0.0 && c.position.Some? }

  function TotalWeight(s: seq<Contribution>): real {
    if s == [] then 0.0
    else TotalWeight(s[..|s| - 1]) + if Positions(s[|s| - 1]) then s[|s| - 1].weight else 0.0
  }

  /** The part of the budget filled: the running weight, up to one. */
  function Budget(s: seq<Contribution>): real { Min(TotalWeight(s), 1.0) }

  function Add(a: Vec3, b: Vec3): Vec3 { Vec3(a.x + b.x, a.y + b.y, a.z + b.z) }

  function Scale(f: real, a: Vec3): Vec3 { Vec3(f * a.x, f * a.y, f * a.z) }

  /** Each position times the part of the budget it fills. */
  function Weighted(s: seq<Contribution>): Vec3 {
    if s == [] then Vec3(0.0, 0.0, 0.0)
    else
      var c := s[|s| - 1];
      if Positions(c) then Add(Weighted(s[..|s| - 1]), Scale(Budget(s) - Budget(s[..|s| - 1]), c.position.value))
      else Weighted(s[..|s| - 1])
  }

  ghost predicate WeightsFit(s: seq<Contribution>) { forall i | 0 <= i < |s| :: s[i].weight <= 1.0 }

  lemma MixOnAxis(before: real, after: real, f: real, p: real, acc: real, sum: real, r: real)
    requires after * f == before && before * acc == sum && r == p + f * (acc - p)
    ensures after * r == sum + (after - before) * p
  {
    assert after * (p + f * (acc - p)) == after * p + (after * f) * (acc - p);
    assert before * (acc - p) == before * acc - before * p;
  }

  lemma QuotientTimes(a: real, b: real)
    requires b > 0.0
    ensures b * (a / b) == a
  {
  }

  lemma FirstOnAxis(weight: real, p: real)
    ensures weight * p == 0.0 + (weight - 0.0) * p
  {
  }

  lemma AxesAgree(f: real, r: Vec3, sum: Vec3, g: real, p: Vec3)
    requires f * r.x == sum.x + g * p.x && f * r.y == sum.y + g * p.y && f * r.z == sum.z + g * p.z
    ensures Scale(f, r) == Add(sum, Scale(g, p))
  {
  }

  lemma MixMeans(before: real, after: real, f: real, p: Vec3, acc: Vec3, sum: Vec3, r: Vec3)
    requires after * f == before && Scale(before, acc) == sum && r == Lerp(f, p, acc)
    ensures Scale(after, r) == Add(sum, Scale(after - before, p))
  {
    MixOnAxis(before, after, f, p.x, acc.x, sum.x, r.x);
    MixOnAxis(before, after, f, p.y, acc.y, sum.y, r.y);
    MixOnAxis(before, after, f, p.z, acc.z, sum.z, r.z);
    AxesAgree(after, r, sum, after - before, p);
  }

  lemma {:induction false} TotalIsNonNegative(s: seq<Contribution>)
    ensures TotalWeight(s) >= 0.0
    ensures PositionFold(s).value.None? <==> TotalWeight(s) == 0.0
    ensures PositionFold(s).value.None? ==> Weighted(s) == Vec3(0.0, 0.0, 0.0)
  {
    if s != [] { TotalIsNonNegative(s[..|s| - 1]); }
  }

  /** The position is the average of the contributed ones, each weighted by the part of the budget it fills. */
  lemma {:induction false} PositionIsBudgetAverage(s: seq<Contribution>)
    requires WeightsFit(s)
    ensures var ch := PositionFold(s);
            ch.sum == Budget(s) && (ch.value.Some? ==> Scale(ch.sum, ch.value.value) == Weighted(s))
  {
    if s != [] {
      var front, c := s[..|s| - 1], s[|s| - 1];
      PositionIsBudgetAverage(front);
      TotalIsNonNegative(front);
      var ch := PositionFold(front);
      if Positions(c) {
        if ch.value.None? {
          FirstOnAxis(c.weight, c.position.value.x);
          FirstOnAxis(c.weight, c.position.value.y);
          FirstOnAxis(c.weight, c.position.value.z);
        } else {
          var f := ch.sum / Budget(s);
          QuotientTimes(ch.sum, Budget(s));
          MixMeans(ch.sum, Budget(s), f, c.position.value, ch.value.value, Weighted(front),
                   Lerp(f, c.position.value, ch.value.value));
        }
      }
    }
  }

  datatype Axis = X | Y | Z

  function On(v: Vec3, axis: Axis): real {
    match axis
    case X => v.x
    case Y => v.y
    case Z => v.z
  }

  ghost predicate Within(s: seq<Contribution>, axis: Axis, lo: real, hi: real) {
    forall i | 0 <= i < |s| && Positions(s[i]) :: lo <= On(s[i].position.value, axis) <= hi
  }

  lemma ShareWithin(share: real, p: real, lo: real, hi: real)
    requires share >= 0.0 && lo <= p <= hi
    ensures lo * share <= share * p <= hi * share
  {
  }

  lemma OnSum(a: Vec3, f: real, p: Vec3, axis: Axis)
    ensures On(Add(a, Scale(f, p)), axis) == On(a, axis) + f * On(p, axis)
  {
  }

  lemma OnScale(f: real, p: Vec3, axis: Axis)
    ensures On(Scale(f, p), axis) == f * On(p, axis)
  {
  }

  lemma LastShare(s: seq<Contribution>, axis: Axis) returns (share: real, p: real)
    requires s != []
    ensures share >= 0.0 && Budget(s) == Budget(s[..|s| - 1]) + share
    ensures On(Weighted(s), axis) == On(Weighted(s[..|s| - 1]), axis) + share * p
    ensures if Positions(s[|s| - 1]) then p == On(s[|s| - 1].position.value, axis) else share == 0.0
  {
    var front, c := s[..|s| - 1], s[|s| - 1];
    share, p := Budget(s) - Budget(front), 0.0;
    if Positions(c) {
      p := On(c.position.value, axis);
      OnSum(Weighted(front), share, c.position.value, axis);
    }
  }

  lemma LastWithin(s: seq<Contribution>, axis: Axis, lo: real, hi: real, b: real, w: real)
    returns (before: real, sum: real, share: real, p: real)
    requires s != [] && Within(s, axis, lo, hi) && b == Budget(s) && w == On(Weighted(s), axis)
    ensures before == Budget(s[..|s| - 1]) && sum == On(Weighted(s[..|s| - 1]), axis)
    ensures share >= 0.0 && b == before + share && w == sum + share * p && (share > 0.0 ==> lo <= p <= hi)
  {
    before, sum := Budget(s[..|s| - 1]), On(Weighted(s[..|s| - 1]), axis);
    share, p := LastShare(s, axis);
  }

  lemma ShareAdds(lo: real, hi: real, before: real, share: real, sum: real, p: real)
    requires share >= 0.0 && (share > 0.0 ==> lo <= p <= hi) && lo * before <= sum <= hi * before
    ensures lo * (before + share) <= sum + share * p <= hi * (before + share)
  {
    if share > 0.0 { ShareWithin(share, p, lo, hi); }
    assert lo * (before + share) == lo * before + lo * share;
    assert hi * (before + share) == hi * before + hi * share;
  }

  lemma {:induction false} WeightedWithin(s: seq<Contribution>, axis: Axis, lo: real, hi: real, b: real, w: real)
    requires Within(s, axis, lo, hi) && b == Budget(s) && w == On(Weighted(s), axis)
    ensures lo * b <= w <= hi * b
  {
    if s != [] {
      var before, sum, share, p := LastWithin(s, axis, lo, hi, b, w);
      WeightedWithin(s[..|s| - 1], axis, lo, hi, before, sum);
      ShareAdds(lo, hi, before, share, sum, p);
    }
  }

  lemma ProductIsLess(b: real, v: real, w: real)
    requires b > 0.0 && v < w
    ensures b * v < w * b
  {
  }

  lemma Divides(b: real, w: real, v: real, lo: real, hi: real)
    requires b > 0.0 && w == b * v && lo * b <= w <= hi * b
    ensures lo <= v <= hi
  {
    if v < lo { ProductIsLess(b, v, lo); }
    if v > hi { ProductIsLess(b, hi, v); }
  }

  lemma AverageWithin(b: real, weighted: Vec3, v: Vec3, axis: Axis, lo: real, hi: real)
    requires b > 0.0 && Scale(b, v) == weighted && lo * b <= On(weighted, axis) <= hi * b
    ensures lo <= On(v, axis) <= hi
  {
    OnScale(b, v, axis);
    Divides(b, On(weighted, axis), On(v, axis), lo, hi);
  }

  /** A convex combination: on every axis the position stays between the contributed ones. */
  lemma PositionIsConvex(s: seq<Contribution>, axis: Axis, lo: real, hi: real, p: Vec3)
    requires WeightsFit(s) && Within(s, axis, lo, hi) && PositionFold(s).value == Some(p)
    ensures lo <= On(p, axis) <= hi
  {
    var b, weighted := Budget(s), Weighted(s);
    PositionIsBudgetAverage(s);
    TotalIsNonNegative(s);
    WeightedWithin(s, axis, lo, hi, b, On(weighted, axis));
    AverageWithin(b, weighted, p, axis, lo, hi);
  }

  /** Contributes to the rotation. */
  predicate Rotates(c: Contribution) { c.weight > 0.0 && c.rotation.Some? }

  /** The running weight of those that do. */
  function RotationWeight(s: seq<Contribution>): real {
    if s == [] then 0.0
    else RotationWeight(s[..|s| - 1]) + if Rotates(s[|s| - 1]) then s[|s| - 1].weight else 0.0
  }

  /** The rotations fill a budget of their own. */
  lemma {:induction false} RotationBudget(mix: (real, Quat, Quat) -> Quat, s: seq<Contribution>)
    requires WeightsFit(s)
    ensures var ch := Fold(mix, RotationOf, s);
            && RotationWeight(s) >= 0.0 && ch.sum == Min(RotationWeight(s), 1.0)
            && (ch.value.None? <==> RotationWeight(s) == 0.0)
  {
    if s != [] { RotationBudget(mix, s[..|s| - 1]); }
  }

  /** The first rotation is taken as it is, and each later one mixed with what there is by the part of the budget
      that was filled before; what has no rotation or no weight changes nothing. */
  lemma RotationFollows(mix: (real, Quat, Quat) -> Quat, front: seq<Contribution>, c: Contribution)
    requires WeightsFit(front + [c])
    ensures var was, now := Fold(mix, RotationOf, front).value, Fold(mix, RotationOf, front + [c]).value;
            var before := RotationWeight(front);
            if c.weight <= 0.0 || c.rotation.None? then now == was
            else if before == 0.0 then now == c.rotation
            else before > 0.0 && was.Some?
                 && now == Some(mix(Min(before, 1.0) / Min(before + c.weight, 1.0), c.rotation.value, was.value))
  {
    var all := front + [c];
    assert all[..|front|] == front && all[|front|] == c;
    assert forall i | 0 <= i < |front| :: all[i] == front[i];
    RotationBudget(mix, front);
  }

  /** Once the budget is full, nothing that follows shows. */
  lemma {:induction false} FullBudgetHidesTheRest(s: seq<Contribution>, rest: seq<Contribution>)
    requires WeightsFit(s) && Budget(s) == 1.0
    ensures PositionFold(s + rest) == PositionFold(s)
  {
    PositionIsBudgetAverage(s);
    if rest == [] {
      assert s + rest == s;
    } else {
      var n := |rest| - 1;
      FullBudgetHidesTheRest(s, rest[..n]);
      assert (s + rest)[..|s| + n] == s + rest[..n];
      var ch := PositionFold(s);
      TotalIsNonNegative(s);
      assert ch.value.Some? && ch.sum / 1.0 == 1.0;
      assert forall p: Vec3 :: Lerp(1.0, p, ch.value.value) == ch.value.value;
    }
  }

  /** Contributions of distinct ranks blend alike in any order. */
  lemma BlendIgnoresOrder(mix: (real, Quat, Quat) -> Quat, s: seq<Contribution>, t: seq<Contribution>)
    requires DistinctRanks(s) && multiset(s) == multiset(t)
    ensures PositionFold(Slots(s)) == PositionFold(Slots(t))
    ensures Fold(mix, RotationOf, Slots(s)) == Fold(mix, RotationOf, Slots(t))
  {
    RankedIgnoresOrder(s, t);
  }

  lemma {:induction false} InsertBehind(s: seq<Contribution>, x: Contribution, n: nat)
    requires n <= |s| && forall i | 0 <= i < n :: !Ahead(x, s[i])
    ensures Insert(s, x)[..n] == s[..n]
  {
    if s != [] && Ahead(x, s[|s| - 1]) {
      assert n <= |s| - 1;
      InsertBehind(s[..|s| - 1], x, n);
      assert s[..|s| - 1][..n] == s[..n];
    }
  }

  /** A contribution behind four others is dropped. */
  lemma FifthIsDropped(s: seq<Contribution>, x: Contribution)
    requires |s| >= MAX_JOINT_CONTRIBUTIONS && forall i | 0 <= i < MAX_JOINT_CONTRIBUTIONS :: !Ahead(x, Ranked(s)[i])
    ensures Slots(s + [x]) == Slots(s)
  {
    assert (s + [x])[..|s|] == s;
    InsertBehind(Ranked(s), x, MAX_JOINT_CONTRIBUTIONS);
  }
}

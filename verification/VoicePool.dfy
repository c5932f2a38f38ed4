/**
 The source cap: how sounds are scored, and which voice a full pool gives up for a newcomer.
 */
module VoicePool {
  // Scores are real numbers.

  import opened Wrappers

  datatype Importance = Ambient | OneShot | Looped | Attached | Ui

  function Tier(i: Importance): nat {
    match i
    case Ambient => 0
    case OneShot => 1
    case Looped => 2
    case Attached => 3
    case Ui => 4
  }

  function Base(i: Importance): real {
    match i
    case Ambient => 0.0
    case OneShot => 100.0
    case Looped => 200.0
    case Attached => 300.0
    case Ui => 400.0
  }

  datatype SoundPriority = SoundPriority(importance: Importance, gain: real, distance: real)

  function Clamp(x: real): real { if x < 0.0 then 0.0 else if x > 1.0 then 1.0 else x }

  /** One at the ear, a half at ten metres, towards nothing far away. */
  function Proximity(distance: real): (p: real)
    ensures 0.0 < p <= 1.0
  {
    var d := if distance > 0.0 then distance else 0.0;
    ProximityInUnit(d);
    1.0 / (1.0 + d / 10.0)
  }

  lemma ProximityInUnit(d: real)
    requires d >= 0.0
    ensures 0.0 < 1.0 / (1.0 + d / 10.0) <= 1.0
  {
    var n := 1.0 + d / 10.0;
    var p := 1.0 / n;
    assert p * n == 1.0;
    if p <= 0.0 { NotPositive(p, n, p * n); }
    if p > 1.0 { MoreThanOne(p, n, p * n); }
  }

  lemma NotPositive(p: real, n: real, pn: real)
    requires p <= 0.0 && n >= 1.0 && pn == p * n
    ensures pn <= 0.0
  {
  }

  lemma MoreThanOne(p: real, n: real, pn: real)
    requires p > 1.0 && n >= 1.0 && pn == p * n
    ensures pn > 1.0
  {
  }

  function Score(s: SoundPriority): real { Base(s.importance) + Clamp(s.gain) + Proximity(s.distance) }

  /** A higher tier outranks a lower one, however loud and close. */
  lemma TierDominates(high: SoundPriority, low: SoundPriority)
    requires Tier(high.importance) > Tier(low.importance)
    ensures Score(high) > Score(low)
  {
  }

  /** Within a tier the louder and nearer sound ranks no lower. */
  lemma LouderAndNearerWins(a: SoundPriority, b: SoundPriority)
    requires a.importance == b.importance && a.gain >= b.gain && a.distance <= b.distance
    ensures Score(a) >= Score(b)
    ensures 0.0 <= a.distance < b.distance ==> Score(a) > Score(b)
  {
    var da, db := if a.distance > 0.0 then a.distance else 0.0, if b.distance > 0.0 then b.distance else 0.0;
    Nearer(1.0 + da / 10.0, 1.0 + db / 10.0);
  }

  lemma Nearer(m: real, n: real)
    requires 1.0 <= m <= n
    ensures 1.0 / m >= 1.0 / n && (m < n ==> 1.0 / m > 1.0 / n)
  {
    var p, q := 1.0 / m, 1.0 / n;
    assert p * m == 1.0 && q * n == 1.0;
    if q <= 0.0 { NotPositive(q, n, q * n); }
    var qm := q * m;
    assert qm <= 1.0 && (m < n ==> qm < 1.0) by { Shrinks(q, m, n, qm, 1.0); }
    if p <= q { Shrinks(m, p, q, 1.0, qm); }
  }

  lemma Shrinks(d: real, x: real, y: real, dx: real, dy: real)
    requires d > 0.0 && x <= y && dx == d * x && dy == d * y
    ensures dx <= dy && (x < y ==> dx < dy)
  {
  }

  // ---------------------------------------------------------------------------------
  // The pool.

  type Id = nat

  type Entry = (Id, real)

  datatype Decision = Admit | Evict(id: Id) | Reject

  /** The first of the entries with the lowest score. */
  ghost predicate IsWeakest(voices: seq<Entry>, at: nat) {
    && at < |voices|
    && (forall k | 0 <= k < |voices| :: voices[at].1 <= voices[k].1)
    && forall k | 0 <= k < at :: voices[at].1 < voices[k].1
  }

  ghost predicate DistinctIds(voices: seq<Entry>) {
    forall i, j | 0 <= i < j < |voices| :: voices[i].0 != voices[j].0
  }

  function IdsOf(voices: seq<Entry>): set<Id> { set e | e in voices :: e.0 }

  function Scores(voices: seq<Entry>): multiset<real> {
    if voices == [] then multiset{} else Scores(voices[..|voices| - 1]) + multiset{voices[|voices| - 1].1}
  }

  /** Removal that fills the gap with the last entry. */
  function SwapRemoved(voices: seq<Entry>, at: nat): seq<Entry>
    requires at < |voices|
  {
    voices[at := voices[|voices| - 1]][..|voices| - 1]
  }

  lemma SwapOne(a: multiset<real>, gone: real, come: real, last: real)
    requires gone in a
    ensures (a - multiset{gone} + multiset{come}) + multiset{last}
            == (a + multiset{last}) - multiset{gone} + multiset{come}
  {
  }

  lemma SwapLast(a: multiset<real>, gone: real, come: real)
    ensures a + multiset{come} == (a + multiset{gone}) - multiset{gone} + multiset{come}
  {
  }

  lemma {:induction false} ScoresUpdate(voices: seq<Entry>, at: nat, e: Entry)
    requires at < |voices|
    ensures voices[at].1 in Scores(voices)
    ensures Scores(voices[at := e]) == Scores(voices) - multiset{voices[at].1} + multiset{e.1}
  {
    var n := |voices| - 1;
    if at == n {
      assert voices[at := e][..n] == voices[..n];
      SwapLast(Scores(voices[..n]), voices[n].1, e.1);
    } else {
      ScoresUpdate(voices[..n], at, e);
      assert voices[at := e][..n] == voices[..n][at := e];
      SwapOne(Scores(voices[..n]), voices[at].1, e.1, voices[n].1);
    }
  }

  lemma Cancel(a: multiset<real>, b: multiset<real>, x: real)
    requires a + multiset{x} == b + multiset{x}
    ensures a == b
  {
    assert forall y :: a[y] == (a + multiset{x})[y] - (if y == x then 1 else 0);
    assert forall y :: b[y] == (b + multiset{x})[y] - (if y == x then 1 else 0);
  }

  lemma SwapRemovedScores(voices: seq<Entry>, at: nat)
    requires at < |voices|
    ensures voices[at].1 in Scores(voices)
    ensures Scores(SwapRemoved(voices, at)) == Scores(voices) - multiset{voices[at].1}
  {
    var n := |voices| - 1;
    var last, moved := voices[n], voices[at := voices[n]];
    ScoresUpdate(voices, at, last);
    assert moved[n] == last && moved[..n] == SwapRemoved(voices, at);
    Cancel(Scores(moved[..n]), Scores(voices) - multiset{voices[at].1}, last.1);
  }

  lemma SwapRemovedIds(voices: seq<Entry>, at: nat)
    requires at < |voices| && DistinctIds(voices)
    ensures DistinctIds(SwapRemoved(voices, at)) && IdsOf(SwapRemoved(voices, at)) == IdsOf(voices) - {voices[at].0}
  {
    var n, r := |voices| - 1, SwapRemoved(voices, at);
    assert forall k | 0 <= k < n :: r[k] == if k == at then voices[n] else voices[k];
    forall id ensures id in IdsOf(r) <==> id in IdsOf(voices) && id != voices[at].0 {
      if id in IdsOf(voices) && id != voices[at].0 {
        var k :| 0 <= k < |voices| && voices[k].0 == id;
        assert r[if k == n then at else k] == voices[k];
      }
      if id in IdsOf(r) {
        var k :| 0 <= k < n && r[k].0 == id;
        assert r[k] == voices[if k == at then n else k];
      }
    }
  }

  class Pool {
    const capacity: nat
    var voices: seq<Entry>

    ghost predicate Valid()
      reads this`voices
    {
      capacity >= 1 && DistinctIds(voices) && |voices| <= capacity
    }

    function Ids(): set<Id>
      reads this`voices
    {
      IdsOf(voices)
    }

    predicate IsFull()
      reads this`voices
    {
      |voices| >= capacity
    }

    constructor (capacity: nat)
      ensures Valid() && voices == [] && this.capacity == if capacity >= 1 then capacity else 1
    {
      this.capacity := if capacity >= 1 then capacity else 1;
      voices := [];
    }

    /** Where the weakest voice is, if there is one. */
    method Weakest() returns (at: Option<nat>)
      ensures at.None? <==> voices == []
      ensures at.Some? ==> IsWeakest(voices, at.value)
    {
      if voices == [] {
        return None;
      }
      var best, k := 0, 1;
      while k < |voices|
        invariant 1 <= k <= |voices| && best < k
        invariant forall j | 0 <= j < k :: voices[best].1 <= voices[j].1
        invariant forall j | 0 <= j < best :: voices[best].1 < voices[j].1
      {
        if voices[k].1 < voices[best].1 {
          best := k;
        }
        k := k + 1;
      }
      return Some(best);
    }

    /** A full pool gives up its weakest voice, and only for a strictly higher score. */
    method Consider(score: real) returns (d: Decision, ghost at: nat)
      requires Valid()
      ensures d.Admit? <==> !IsFull()
      ensures IsFull() ==>
                IsWeakest(voices, at) && if score > voices[at].1 then d == Evict(voices[at].0) else d == Reject
    {
      at := 0;
      if !IsFull() {
        return Admit, at;
      }
      var weakest := Weakest();
      at := weakest.value;
      if score > voices[weakest.value].1 {
        return Evict(voices[weakest.value].0), at;
      }
      return Reject, at;
    }

    method Remove(id: Id) returns (found: bool)
      requires Valid()
      modifies this`voices
      ensures Valid() && Ids() == old(Ids()) - {id} && found == (id in old(Ids()))
      ensures !found ==> voices == old(voices)
      ensures found ==> exists at: nat ::
                at < |old(voices)| && old(voices)[at].0 == id && voices == SwapRemoved(old(voices), at)
    {
      var at := 0;
      while at < |voices| && voices[at].0 != id
        invariant 0 <= at <= |voices| && forall k | 0 <= k < at :: voices[k].0 != id
      {
        at := at + 1;
      }
      found := at < |voices|;
      if found {
        assert voices[at] in voices;
        SwapRemovedIds(voices, at);
        voices := voices[at := voices[|voices| - 1]][..|voices| - 1];
      }
    }

    /** Records a voice; if the pool is full, the weakest leaves it. */
    method Insert(id: Id, score: real) returns (ghost gone: set<Id>)
      requires Valid()
      modifies this`voices
      ensures |voices| <= capacity && Ids() == old(Ids()) - gone + {id} && (id !in old(Ids()) - gone ==> Valid())
      ensures !old(IsFull()) ==> gone == {} && voices == old(voices) + [(id, score)]
      ensures old(IsFull()) ==>
                exists at: nat ::
                    IsWeakest(old(voices), at) && gone == {old(voices)[at].0}
                        && voices == SwapRemoved(old(voices), at) + [(id, score)]
    {
      gone := {};
      if IsFull() {
        var weakest := Weakest();
        gone := {voices[weakest.value].0};
        assert IsWeakest(voices, weakest.value);
        assert voices[weakest.value] in voices;
        var removed := Remove(voices[weakest.value].0);
      }
      ghost var before := voices;
      voices := voices + [(id, score)];
      assert IdsOf(voices) == IdsOf(before) + {id} by {
        assert (id, score) in voices && forall e :: e in voices <==> e in before || e == (id, score);
      }
      if id !in IdsOf(before) {
        assert forall k | 0 <= k < |before| :: before[k] in before;
      }
    }

    method Reprioritize(id: Id, score: real)
      requires Valid()
      modifies this`voices
      ensures Valid() && Ids() == old(Ids()) && |voices| == |old(voices)|
      ensures forall k | 0 <= k < |voices| ::
                voices[k] == if old(voices)[k].0 == id then (id, score) else old(voices)[k]
    {
      var at := 0;
      while at < |voices| && voices[at].0 != id
        invariant 0 <= at <= |voices| && forall k | 0 <= k < at :: voices[k].0 != id
      {
        at := at + 1;
      }
      if at < |voices| {
        ghost var before := voices;
        voices := voices[at := (id, score)];
        SameIds(before, voices);
      }
    }

    /** Stops the voice that a decision displaces, if it does. */
    method Displace(d: Decision, ghost at: nat)
      requires Valid() && !d.Reject? && (d.Admit? ==> !IsFull())
      requires d.Evict? ==> at < |voices| && d.id == voices[at].0
      modifies this`voices
      ensures Valid() && !IsFull() && voices == if d.Evict? then SwapRemoved(old(voices), at) else old(voices)
      ensures Ids() == if d.Evict? then old(Ids()) - {d.id} else old(Ids())
    {
      if d.Evict? {
        ghost var before := voices;
        var found := Remove(d.id);
        assert before[at] in before;
        RemovedIs(before, at, voices);
      }
    }

    /** What a caller does with a sound: considers it, stops the voice it displaces, and records it if it plays. */
    method Offer(id: Id, score: real) returns (d: Decision)
      requires Valid() && id !in Ids()
      modifies this`voices
      ensures Valid() && Scores(voices) == Offered(old(Scores(voices)), capacity, score)
      ensures Ids() == match d case Admit => old(Ids()) + {id} case Evict(weak) => old(Ids()) - {weak} + {id}
              case Reject => old(Ids())
    {
      ghost var at;
      d, at := Consider(score);
      OfferMeans(voices, capacity, score, at);
      if !d.Reject? {
        Displace(d, at);
        ghost var kept := voices;
        ghost var gone := Insert(id, score);
        assert voices == kept + [(id, score)] && voices[..|kept|] == kept;
      }
    }
  }

  /** The scores that an offer leaves, by the decision on it. */
  lemma OfferMeans(voices: seq<Entry>, capacity: nat, score: real, at: nat)
    requires capacity >= 1 && (|voices| >= capacity ==> IsWeakest(voices, at))
    ensures |voices| < capacity ==> Offered(Scores(voices), capacity, score) == Scores(voices) + multiset{score}
    ensures |voices| >= capacity && score > voices[at].1 ==>
              Offered(Scores(voices), capacity, score) == Scores(SwapRemoved(voices, at)) + multiset{score}
    ensures |voices| >= capacity && score <= voices[at].1 ==> Offered(Scores(voices), capacity, score) == Scores(voices)
  {
    ScoresSize(voices);
    if |voices| >= capacity {
      WeakestIsLeast(voices, at);
      SwapRemovedScores(voices, at);
      OfferedIs(Scores(voices), capacity, score, voices[at].1);
    }
  }

  lemma OfferedIs(scores: multiset<real>, capacity: nat, score: real, least: real)
    requires |scores| >= capacity && |scores| > 0 && least == Least(scores)
    ensures Offered(scores, capacity, score) == if score > least then scores - multiset{least} + multiset{score}
        else scores
  {
  }

  lemma SameIds(a: seq<Entry>, b: seq<Entry>)
    requires |a| == |b| && forall k | 0 <= k < |a| :: a[k].0 == b[k].0
    ensures IdsOf(a) == IdsOf(b)
  {
    forall id ensures id in IdsOf(a) <==> id in IdsOf(b) {
      if id in IdsOf(a) { var k :| 0 <= k < |a| && a[k].0 == id; assert b[k] in b; }
      if id in IdsOf(b) { var k :| 0 <= k < |b| && b[k].0 == id; assert a[k] in a; }
    }
  }

  /** The entry with a given id is the only one there is to remove. */
  lemma RemovedIs(before: seq<Entry>, at: nat, after: seq<Entry>)
    requires DistinctIds(before) && at < |before|
    requires exists k: nat :: k < |before| && before[k].0 == before[at].0 && after == SwapRemoved(before, k)
    ensures after == SwapRemoved(before, at)
  {
  }

  // ---------------------------------------------------------------------------------
  // What the pool keeps: the highest of the scores it was offered.

  ghost predicate IsLeast(scores: multiset<real>, least: real) {
    least in scores && forall x <- scores :: least <= x
  }

  ghost function Least(scores: multiset<real>): (least: real)
    requires |scores| > 0
    ensures IsLeast(scores, least)
  {
    LeastExists(scores);
    var least :| IsLeast(scores, least);
    least
  }

  lemma {:induction false} LeastExists(scores: multiset<real>)
    requires |scores| > 0
    ensures exists least :: IsLeast(scores, least)
  {
    var x := Member(scores);
    if |scores| == 1 {
      assert scores == multiset{x} by { assert |scores - multiset{x}| == 0; }
      assert IsLeast(scores, x);
    } else {
      var rest := scores - multiset{x};
      LeastExists(rest);
      var least :| IsLeast(rest, least);
      var y := if x < least then x else least;
      forall z <- scores ensures y <= z {
        if z != x { assert z in rest; }
      }
      assert IsLeast(scores, y);
    }
  }

  /** The scores after one more offer. */
  ghost function Offered(scores: multiset<real>, capacity: nat, score: real): multiset<real> {
    if |scores| < capacity then scores + multiset{score}
    else if |scores| > 0 && score > Least(scores) then scores - multiset{Least(scores)} + multiset{score}
    else scores
  }

  lemma {:induction false} ScoresSize(voices: seq<Entry>)
    ensures |Scores(voices)| == |voices|
    ensures forall x :: x in Scores(voices) <==> exists k :: 0 <= k < |voices| && voices[k].1 == x
  {
    if voices != [] {
      var n := |voices| - 1;
      ScoresSize(voices[..n]);
      forall x ensures x in Scores(voices) <==> exists k :: 0 <= k < |voices| && voices[k].1 == x {
        if x == voices[n].1 { assert x in Scores(voices); }
        if x in Scores(voices[..n]) { var k :| 0 <= k < n && voices[..n][k].1 == x; assert voices[k].1 == x; }
        if exists k :: 0 <= k < |voices| && voices[k].1 == x {
          var k :| 0 <= k < |voices| && voices[k].1 == x;
          if k < n { assert voices[..n][k].1 == x; }
        }
      }
    }
  }

  lemma WeakestIsLeast(voices: seq<Entry>, at: nat)
    requires IsWeakest(voices, at)
    ensures |Scores(voices)| > 0 && Least(Scores(voices)) == voices[at].1
  {
    ScoresSize(voices);
    var least := Least(Scores(voices));
    assert voices[at].1 in Scores(voices);
    var k :| 0 <= k < |voices| && voices[k].1 == least;
  }

  /** The scores after a sequence of offers to an empty pool. */
  ghost function AfterOffers(scores: seq<real>, capacity: nat): multiset<real> {
    if scores == [] then multiset{}
        else Offered(AfterOffers(scores[..|scores| - 1], capacity), capacity, scores[|scores| - 1])
  }

  /** `kept` are the highest of `all`, as many as fit: nothing turned away outranks anything kept. */
  ghost predicate AreHighest(kept: multiset<real>, all: multiset<real>, capacity: nat) {
    && kept <= all
    && |kept| == (if |all| < capacity then |all| else capacity)
    && forall k, r | k in kept && r in all - kept :: r <= k
  }

  lemma OfferKeepsHighest(kept: multiset<real>, all: multiset<real>, capacity: nat, score: real)
    requires capacity >= 1 && AreHighest(kept, all, capacity)
    ensures AreHighest(Offered(kept, capacity, score), all + multiset{score}, capacity)
  {
    var after, more := Offered(kept, capacity, score), all + multiset{score};
    if |kept| < capacity {
      assert |all - kept| == 0;
      assert more - after == all - kept;
    } else if score > Least(kept) {
      var least := Least(kept);
      assert more - after == (all - kept) + multiset{least};
    } else {
      assert more - after == (all - kept) + multiset{score};
    }
  }

  /** Whatever the offers, the pool ends up with the highest of them. */
  lemma {:induction false} PoolKeepsHighest(scores: seq<real>, capacity: nat)
    requires capacity >= 1
    ensures AreHighest(AfterOffers(scores, capacity), multiset(scores), capacity)
  {
    if scores != [] {
      var n := |scores| - 1;
      PoolKeepsHighest(scores[..n], capacity);
      OfferKeepsHighest(AfterOffers(scores[..n], capacity), multiset(scores[..n]), capacity, scores[n]);
      assert scores == scores[..n] + [scores[n]];
    }
  }

  lemma EmptyIf(m: multiset<real>)
    requires forall y :: y !in m
    ensures m == multiset{}
  {
    assert forall y: real :: m[y] == 0;
  }

  lemma Member(m: multiset<real>) returns (x: real)
    requires m != multiset{}
    ensures x in m
  {
    if forall y :: y !in m { EmptyIf(m); }
    x :| x in m;
  }

  lemma NoDifference(a: multiset<real>, b: multiset<real>)
    requires |a| == |b| && a - b == multiset{}
    ensures a == b
  {
    var more := b - a;
    forall y: real ensures b[y] == (a + more)[y] {
      assert (a - b)[y] == 0 && a[y] <= b[y] && more[y] == b[y] - a[y];
    }
    assert b == a + more;
  }

  /** What only one of two selections has is worth no less than what only the other has. */
  lemma OnlyOneHas(a: multiset<real>, b: multiset<real>, all: multiset<real>, capacity: nat, x: real, y: real)
    requires AreHighest(a, all, capacity) && AreHighest(b, all, capacity) && a[x] > b[x] && b[y] > a[y]
    ensures x >= y
  {
    assert x in a && y in all - a;
  }

  /** There is only one such selection. */
  lemma HighestIsUnique(a: multiset<real>, b: multiset<real>, all: multiset<real>, capacity: nat)
    requires AreHighest(a, all, capacity) && AreHighest(b, all, capacity)
    ensures a == b
  {
    if a - b == multiset{} {
      NoDifference(a, b);
    } else if b - a == multiset{} {
      NoDifference(b, a);
    } else {
      var x := Member(a - b);
      var y := Member(b - a);
      OnlyOneHas(a, b, all, capacity, x, y);
      OnlyOneHas(b, a, all, capacity, y, x);
    }
  }
}

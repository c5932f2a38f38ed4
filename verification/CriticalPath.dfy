/** Critical-path analysis of a build: the graph of a timing report, its schedule, and the chain that gates it. */
module CriticalPath {
  import opened Digraph
  import opened Sequences
  import opened Tally
  import opened Wrappers

  type Index = int
  type UnitKey = (string, string, string)

  /** One compilation unit of the report. */
  datatype Unit = Unit(
    i: Index, name: string, mode: string, target: string,
    duration: real, rmetaTime: Option<real>,
    unblocked: seq<Index>, unblockedRmeta: seq<Index>)

  function KeyOf(u: Unit): UnitKey { (u.name, u.mode, u.target) }

  datatype Kind = Full | Rmeta

  /** `consumer` waits for `producer`, or only for its metadata. */
  datatype Edge = Edge(producer: Index, kind: Kind, consumer: Index)

  function Indices(units: seq<Unit>): set<Index> {
    set u <- units :: u.i
  }

  function IndexList(units: seq<Unit>): seq<Index> {
    seq(|units|, k requires 0 <= k < |units| => units[k].i)
  }

  // ---------------------------------------------------------------------------------
  // Edges.

  /** The edges to known consumers, in the order they are recorded. */
  function EdgesTo(producer: Index, kind: Kind, consumers: seq<Index>, known: set<Index>): seq<Edge> {
    if consumers == [] then []
    else (if consumers[0] in known then [Edge(producer, kind, consumers[0])] else [])
         + EdgesTo(producer, kind, consumers[1..], known)
  }

  function UnitEdges(u: Unit, known: set<Index>): seq<Edge> {
    EdgesTo(u.i, Full, u.unblocked, known) + EdgesTo(u.i, Rmeta, u.unblockedRmeta, known)
  }

  function Edges(units: seq<Unit>, known: set<Index>): seq<Edge> {
    if units == [] then [] else UnitEdges(units[0], known) + Edges(units[1..], known)
  }

  function GraphEdges(units: seq<Unit>): seq<Edge> { Edges(units, Indices(units)) }

  function PredsOf(edges: seq<Edge>, c: Index): seq<(Index, Kind)> {
    if edges == [] then []
    else (if edges[0].consumer == c then [(edges[0].producer, edges[0].kind)] else []) + PredsOf(edges[1..], c)
  }

  function SuccsOf(edges: seq<Edge>, p: Index): seq<Index> {
    if edges == [] then []
    else (if edges[0].producer == p then [edges[0].consumer] else []) + SuccsOf(edges[1..], p)
  }

  lemma {:induction false} PredsAppend(a: seq<Edge>, b: seq<Edge>, c: Index)
    ensures PredsOf(a + b, c) == PredsOf(a, c) + PredsOf(b, c)
  {
    if a == [] {
      assert a + b == b;
    } else {
      assert (a + b)[1..] == a[1..] + b;
      PredsAppend(a[1..], b, c);
      Associates(if a[0].consumer == c then [(a[0].producer, a[0].kind)] else [], PredsOf(a[1..], c), PredsOf(b, c));
    }
  }

  lemma {:induction false} SuccsAppend(a: seq<Edge>, b: seq<Edge>, p: Index)
    ensures SuccsOf(a + b, p) == SuccsOf(a, p) + SuccsOf(b, p)
  {
    if a == [] {
      assert a + b == b;
    } else {
      assert (a + b)[1..] == a[1..] + b;
      SuccsAppend(a[1..], b, p);
      Associates(if a[0].producer == p then [a[0].consumer] else [], SuccsOf(a[1..], p), SuccsOf(b, p));
    }
  }

  /** `preds` and `succs` list exactly `edges`, in order. */
  ghost predicate Lists(edges: seq<Edge>, nodes: set<Index>, preds: map<Index, seq<(Index, Kind)>>,
                        succs: map<Index, seq<Index>>)
  {
    && preds.Keys == succs.Keys == nodes
    && (forall c <- nodes :: preds[c] == PredsOf(edges, c))
    && (forall p <- nodes :: succs[p] == SuccsOf(edges, p))
  }

  lemma ListsAppend(edges: seq<Edge>, edge: Edge, nodes: set<Index>, preds: map<Index, seq<(Index, Kind)>>,
                    succs: map<Index, seq<Index>>)
    requires Lists(edges, nodes, preds, succs) && edge.producer in nodes && edge.consumer in nodes
    ensures Lists(edges + [edge], nodes,
                  preds[edge.consumer := preds[edge.consumer] + [(edge.producer, edge.kind)]],
                  succs[edge.producer := succs[edge.producer] + [edge.consumer]])
  {
    forall c <- nodes ensures PredsOf(edges + [edge], c) ==
          PredsOf(edges, c) + if edge.consumer == c then [(edge.producer, edge.kind)] else [] {
      PredsAppend(edges, [edge], c);
    }
    forall p <- nodes ensures SuccsOf(edges + [edge], p) ==
          SuccsOf(edges, p) + if edge.producer == p then [edge.consumer] else [] {
      SuccsAppend(edges, [edge], p);
    }
  }

  method BuildEdges(units: seq<Unit>) returns (preds: map<Index, seq<(Index, Kind)>>, succs: map<Index, seq<Index>>)
    ensures Lists(GraphEdges(units), Indices(units), preds, succs)
  {
    var nodes := set u <- units :: u.i;
    preds := map i <- nodes :: [];
    succs := map i <- nodes :: [];
    ghost var done: seq<Edge> := [];
    var k := 0;
    assert units[0..] == units;
    while k < |units|
      invariant 0 <= k <= |units|
      invariant done + Edges(units[k..], nodes) == GraphEdges(units)
      invariant Lists(done, nodes, preds, succs)
    {
      assert units[k..][1..] == units[k + 1..];
      preds, succs := AddUnit(units[k], done, nodes, preds, succs);
      Associates(done, UnitEdges(units[k], nodes), Edges(units[k + 1..], nodes));
      done := done + UnitEdges(units[k], nodes);
      k := k + 1;
    }
    assert done + [] == done;
  }

  method AddUnit(u: Unit, ghost done: seq<Edge>, nodes: set<Index>,
                 preds0: map<Index, seq<(Index, Kind)>>, succs0: map<Index, seq<Index>>)
    returns (preds: map<Index, seq<(Index, Kind)>>, succs: map<Index, seq<Index>>)
    requires u.i in nodes && Lists(done, nodes, preds0, succs0)
    ensures Lists(done + UnitEdges(u, nodes), nodes, preds, succs)
  {
    preds, succs := AddConsumers(u.i, Full, u.unblocked, done, nodes, preds0, succs0);
    ghost var full := EdgesTo(u.i, Full, u.unblocked, nodes);
    preds, succs := AddConsumers(u.i, Rmeta, u.unblockedRmeta, done + full, nodes, preds, succs);
    Associates(done, full, EdgesTo(u.i, Rmeta, u.unblockedRmeta, nodes));
  }

  method AddConsumers(producer: Index, kind: Kind, consumers: seq<Index>, ghost done: seq<Edge>, nodes: set<Index>,
                      preds0: map<Index, seq<(Index, Kind)>>, succs0: map<Index, seq<Index>>)
    returns (preds: map<Index, seq<(Index, Kind)>>, succs: map<Index, seq<Index>>)
    requires producer in nodes && Lists(done, nodes, preds0, succs0)
    ensures Lists(done + EdgesTo(producer, kind, consumers, nodes), nodes, preds, succs)
  {
    preds, succs := preds0, succs0;
    ghost var now := done;
    var k := 0;
    assert consumers[0..] == consumers;
    while k < |consumers|
      invariant 0 <= k <= |consumers|
      invariant now + EdgesTo(producer, kind, consumers[k..], nodes) == done + EdgesTo(producer, kind, consumers, nodes)
      invariant Lists(now, nodes, preds, succs)
    {
      var consumer := consumers[k];
      assert consumers[k..][1..] == consumers[k + 1..];
      ghost var rest := EdgesTo(producer, kind, consumers[k + 1..], nodes);
      if consumer in preds {
        ghost var edge := Edge(producer, kind, consumer);
        ListsAppend(now, edge, nodes, preds, succs);
        Associates(now, [edge], rest);
        preds := preds[consumer := preds[consumer] + [(producer, kind)]];
        succs := succs[producer := succs[producer] + [consumer]];
        now := now + [edge];
      } else {
        assert [] + rest == rest;
      }
      k := k + 1;
    }
    assert now + [] == now;
  }

  lemma {:induction false} EdgesToKnown(producer: Index, kind: Kind, consumers: seq<Index>, known: set<Index>)
    ensures forall e <- EdgesTo(producer, kind, consumers, known) ::
              e.producer == producer && e.kind == kind && e.consumer in known
  {
    if consumers != [] { EdgesToKnown(producer, kind, consumers[1..], known); }
  }

  lemma {:induction false} EdgesKnown(units: seq<Unit>, known: set<Index>)
    requires Indices(units) <= known
    ensures forall e <- Edges(units, known) :: e.producer in known && e.consumer in known
  {
    if units != [] {
      assert units[0].i in Indices(units);
      assert Indices(units[1..]) <= Indices(units);
      EdgesKnown(units[1..], known);
      EdgesToKnown(units[0].i, Full, units[0].unblocked, known);
      EdgesToKnown(units[0].i, Rmeta, units[0].unblockedRmeta, known);
    }
  }

  /** The edges as a relation. */
  ghost function Relation(edges: seq<Edge>): set<(Index, Index)> {
    set e <- edges :: (e.producer, e.consumer)
  }

  // ---------------------------------------------------------------------------------
  // Counting edges, multiplicities included.

  /** The edges into `c` from producers outside `done`. */
  function Open(edges: seq<Edge>, done: set<Index>, c: Index): nat {
    if edges == [] then 0
    else (if edges[0].consumer == c && edges[0].producer !in done then 1 else 0) + Open(edges[1..], done, c)
  }

  function Count(s: seq<Index>, x: Index): nat {
    if s == [] then 0 else (if s[0] == x then 1 else 0) + Count(s[1..], x)
  }

  lemma {:induction false} OpenAtFirst(edges: seq<Edge>, c: Index)
    ensures |PredsOf(edges, c)| == Open(edges, {}, c)
  {
    if edges != [] { OpenAtFirst(edges[1..], c); }
  }

  lemma {:induction false} OpenAfter(edges: seq<Edge>, done: set<Index>, p: Index, c: Index)
    requires p !in done
    ensures Open(edges, done + {p}, c) + Count(SuccsOf(edges, p), c) == Open(edges, done, c)
  {
    if edges != [] {
      OpenAfter(edges[1..], done, p, c);
      if edges[0].producer == p {
        assert SuccsOf(edges, p)[1..] == SuccsOf(edges[1..], p);
      } else {
        assert SuccsOf(edges, p) == SuccsOf(edges[1..], p);
      }
    }
  }

  ghost predicate IsOpen(e: Edge, done: set<Index>, c: Index) { e.consumer == c && e.producer !in done }

  lemma {:induction false} OpenWitness(edges: seq<Edge>, done: set<Index>, c: Index) returns (e: Edge)
    requires Open(edges, done, c) > 0
    ensures e in edges && IsOpen(e, done, c)
  {
    if IsOpen(edges[0], done, c) {
      e := edges[0];
    } else {
      e := OpenWitness(edges[1..], done, c);
    }
  }

  lemma {:induction false} OpenNone(edges: seq<Edge>, done: set<Index>, c: Index)
    requires Open(edges, done, c) == 0
    ensures forall e <- edges :: !IsOpen(e, done, c)
  {
    if edges != [] {
      OpenNone(edges[1..], done, c);
      forall e <- edges ensures !IsOpen(e, done, c) {
        if e != edges[0] { assert e in edges[1..]; }
      }
    }
  }

  // ---------------------------------------------------------------------------------
  // Kahn's algorithm.

  ghost function Members(s: seq<Index>): set<Index> { set x | x in s }

  ghost predicate IsTopological(order: seq<Index>, edges: seq<Edge>, nodes: set<Index>) {
    && Distinct(order)
    && Members(order) == nodes
    && Orders(order, Relation(edges))
  }

  /** The producers of `order[k]` all come before it. */
  ghost predicate Supplied(edges: seq<Edge>, order: seq<Index>, k: nat)
    requires k < |order|
  {
    forall e <- edges | e.consumer == order[k] :: e.producer in order[..k]
  }

  /** The state between two rounds of the worklist loop. */
  ghost predicate KahnInv(edges: seq<Edge>, nodes: set<Index>, order: seq<Index>, ready: seq<Index>,
                          remaining: map<Index, int>)
  {
    && Distinct(order) && Distinct(ready)
    && remaining.Keys == nodes
    && (forall i <- order :: i in nodes)
    && (forall i <- ready :: i in nodes && i !in order)
    && (forall c <- nodes :: remaining[c] == Open(edges, Members(order), c))
    && (forall c <- nodes :: remaining[c] == 0 <==> c in order || c in ready)
    && (forall k: nat | k < |order| :: Supplied(edges, order, k))
  }

  /** The state while the consumers of `current` are counted down; `left` is still to do. */
  ghost predicate CountdownInv(edges: seq<Edge>, nodes: set<Index>, order: seq<Index>, ready: seq<Index>,
                               remaining: map<Index, int>, left: seq<Index>)
  {
    && Distinct(ready)
    && remaining.Keys == nodes
    && (forall i <- ready :: i in nodes && i !in order)
    && (forall c <- nodes :: remaining[c] == Open(edges, Members(order), c) + Count(left, c))
    && (forall c <- nodes :: remaining[c] == 0 <==> c in order || c in ready)
  }

  lemma DistinctAppend<T>(s: seq<T>, x: T)
    requires Distinct(s) && x !in s
    ensures Distinct(s + [x])
  {
  }

  /** Where one consumer is counted down. */
  lemma CountdownStep(edges: seq<Edge>, nodes: set<Index>, order: seq<Index>, ready: seq<Index>,
                      remaining: map<Index, int>, left: seq<Index>)
    requires CountdownInv(edges, nodes, order, ready, remaining, left) && left != [] && left[0] in nodes
    ensures var c := left[0];
            var remaining' := remaining[c := remaining[c] - 1];
            var ready' := if remaining'[c] == 0 then ready + [c] else ready;
            CountdownInv(edges, nodes, order, ready', remaining', left[1..])
  {
    var c := left[0];
    assert remaining[c] >= 1;
    assert c !in ready && c !in order;
    DistinctAppend(ready, c);
  }

  /** `current` leaves the worklist for the order. */
  lemma PopStep(edges: seq<Edge>, nodes: set<Index>, order: seq<Index>, ready: seq<Index>, remaining: map<Index, int>)
    requires KahnInv(edges, nodes, order, ready, remaining) && ready != []
    ensures var n := |ready| - 1;
            var order' := order + [ready[n]];
            && Distinct(order') && (forall i <- order' :: i in nodes) && ready[n] in nodes
            && (forall k: nat | k < |order'| :: Supplied(edges, order', k))
            && CountdownInv(edges, nodes, order', ready[..n], remaining, SuccsOf(edges, ready[n]))
  {
    var n := |ready| - 1;
    var current := ready[n];
    var order' := order + [current];
    assert current in ready;
    DistinctAppend(order, current);
    assert Members(order') == Members(order) + {current};
    forall c <- nodes ensures remaining[c] == Open(edges, Members(order'), c) + Count(SuccsOf(edges, current), c) {
      OpenAfter(edges, Members(order), current, c);
    }
    OpenNone(edges, Members(order), current);
    forall k: nat | k < |order'| ensures Supplied(edges, order', k) {
      if k < |order| {
        assert Supplied(edges, order, k) && order'[..k] == order[..k];
      } else {
        assert order'[..k] == order;
        forall e <- edges | e.consumer == current ensures e.producer in order {
          assert !IsOpen(e, Members(order), current);
        }
      }
    }
    forall i <- ready[..n] ensures i in nodes && i !in order' {
      assert i in ready;
    }
    forall c <- nodes ensures remaining[c] == 0 <==> c in order' || c in ready[..n] {
      assert c in ready <==> c in ready[..n] || c == current by {
        assert ready == ready[..n] + [current];
      }
    }
  }

  lemma StartInv(edges: seq<Edge>, nodes: set<Index>, preds: map<Index, seq<(Index, Kind)>>, remaining: map<Index, int>,
                 ready: seq<Index>)
    requires preds.Keys == nodes && forall c <- nodes :: preds[c] == PredsOf(edges, c)
    requires remaining.Keys == nodes && forall c <- nodes :: remaining[c] == |preds[c]|
    requires Distinct(ready) && forall c :: c in ready <==> c in nodes && remaining[c] == 0
    ensures KahnInv(edges, nodes, [], ready, remaining)
  {
    assert Members([]) == {};
    forall c <- nodes ensures remaining[c] == Open(edges, {}, c) {
      OpenAtFirst(edges, c);
    }
  }

  /** When the worklist is empty, the order is complete or the rest of the graph is a trap. */
  lemma StuckIsCyclic(edges: seq<Edge>, nodes: set<Index>, order: seq<Index>, remaining: map<Index, int>)
    requires KahnInv(edges, nodes, order, [], remaining)
    requires forall e <- edges :: e.producer in nodes && e.consumer in nodes
    requires Members(order) != nodes
    ensures Cyclic(Relation(edges))
  {
    var trap := nodes - Members(order);
    var flipped := Flip(Relation(edges));
    forall c | c in trap ensures CanStay(flipped, trap, c) {
      var e := OpenWitness(edges, Members(order), c);
      assert (e.producer, e.consumer) in Relation(edges);
      assert (c, e.producer) in flipped;
    }
    MembersIn(order, nodes);
    Remainder(Members(order), nodes);
    TrapIsCyclic(flipped, trap);
    FlippedCycle(Relation(edges));
  }

  lemma CompleteIsTopological(edges: seq<Edge>, nodes: set<Index>, order: seq<Index>, remaining: map<Index, int>)
    requires KahnInv(edges, nodes, order, [], remaining)
    requires forall e <- edges :: e.producer in nodes && e.consumer in nodes
    requires Members(order) == nodes
    ensures IsTopological(order, edges, nodes)
  {
    forall pair <- Relation(edges)
      ensures exists i, j :: 0 <= i < j < |order| && order[i] == pair.0 && order[j] == pair.1
    {
      var e :| e in edges && pair == (e.producer, e.consumer);
      assert e.consumer in Members(order);
      var j: nat :| j < |order| && order[j] == e.consumer;
      assert Supplied(edges, order, j);
      var i: nat :| i < j && order[..j][i] == e.producer;
      assert order[i] == pair.0;
    }
  }

  lemma DistinctTail(s: seq<Index>)
    requires s != []
    ensures Distinct(s) <==> s[0] !in s[1..] && Distinct(s[1..])
  {
    var rest := s[1..];
    if s[0] !in rest && Distinct(rest) {
      forall i, j | 0 <= i < j < |s| ensures s[i] != s[j] {
        assert s[j] == rest[j - 1];
        assert i > 0 ==> s[i] == rest[i - 1];
      }
    }
    if Distinct(s) {
      assert forall k | 0 <= k < |rest| :: rest[k] == s[k + 1];
    }
  }

  lemma {:induction false} MembersSize(s: seq<Index>)
    ensures |Members(s)| <= |s|
    ensures |Members(s)| == |s| <==> Distinct(s)
  {
    if s != [] {
      MembersSize(s[1..]);
      DistinctTail(s);
      assert Members(s) == {s[0]} + Members(s[1..]);
      if s[0] in s[1..] { assert Members(s) == Members(s[1..]); }
    }
  }

  /** The worklist ends with as many units in `order` as there are exactly if it is complete. */
  lemma CompleteIffAll(units: seq<Unit>, order: seq<Index>)
    requires Distinct(order) && Members(order) <= Indices(units)
    ensures |order| == |units| <==> Members(order) == Indices(units) && Distinct(IndexList(units))
  {
    MembersSize(order);
    MembersSize(IndexList(units));
    assert Members(IndexList(units)) == Indices(units) by {
      forall k | 0 <= k < |units| ensures units[k].i in IndexList(units) {
        assert IndexList(units)[k] == units[k].i;
      }
    }
    SubsetSize(Members(order), Indices(units));
  }

  lemma MembersIn(s: seq<Index>, nodes: set<Index>)
    requires forall i <- s :: i in nodes
    ensures Members(s) <= nodes
  {
    forall i <- Members(s) ensures i in nodes { assert i in s; }
  }

  /** An order of the units with every producer before its consumers; `None` stands for the
      program's exit with an error.  There is an order exactly if the unit indices are distinct
      and no unit waits for itself, however indirectly. */
  method TopologicalOrder(units: seq<Unit>, preds: map<Index, seq<(Index, Kind)>>, succs: map<Index, seq<Index>>)
    returns (order: Option<seq<Index>>)
    requires Lists(GraphEdges(units), Indices(units), preds, succs)
    ensures order.Some? ==> IsTopological(order.value, GraphEdges(units), Indices(units))
    ensures order.Some? <==> Distinct(IndexList(units)) && !Cyclic(Relation(GraphEdges(units)))
  {
    ghost var edges, nodes := GraphEdges(units), Indices(units);
    EdgesKnown(units, nodes);
    var done;
    ghost var remaining;
    done, remaining := RunWorklist(units, preds, succs);
    MembersIn(done, nodes);
    CompleteIffAll(units, done);
    if |done| != |units| {
      if Members(done) != nodes {
        StuckIsCyclic(edges, nodes, done, remaining);
      }
      return None;
    }
    CompleteIsTopological(edges, nodes, done, remaining);
    OrderedIsAcyclic(Relation(edges), done);
    return Some(done);
  }

  method RunWorklist(units: seq<Unit>, preds: map<Index, seq<(Index, Kind)>>, succs: map<Index, seq<Index>>)
    returns (done: seq<Index>, ghost left: map<Index, int>)
    requires Lists(GraphEdges(units), Indices(units), preds, succs)
    ensures KahnInv(GraphEdges(units), Indices(units), done, [], left)
  {
    ghost var edges, nodes := GraphEdges(units), Indices(units);
    EdgesKnown(units, nodes);
    var remaining := map i <- preds.Keys :: |preds[i]|;
    var ready := ReadyAtFirst(units, remaining);
    done := [];
    StartInv(edges, nodes, preds, remaining, ready);
    while ready != []
      invariant KahnInv(edges, nodes, done, ready, remaining)
      decreases |nodes| - |done|
    {
      done, ready, remaining := Round(edges, nodes, done, ready, remaining, succs);
    }
    left := remaining;
  }

  /** One round: the last ready unit is put in order and its consumers are counted down. */
  method Round(ghost edges: seq<Edge>, ghost nodes: set<Index>, done0: seq<Index>, ready0: seq<Index>,
               remaining0: map<Index, int>, succs: map<Index, seq<Index>>)
    returns (done: seq<Index>, ready: seq<Index>, remaining: map<Index, int>)
    requires KahnInv(edges, nodes, done0, ready0, remaining0) && ready0 != []
    requires succs.Keys == nodes && forall p <- nodes :: succs[p] == SuccsOf(edges, p)
    requires forall e <- edges :: e.consumer in nodes
    ensures KahnInv(edges, nodes, done, ready, remaining)
    ensures |done0| < |done| <= |nodes|
  {
    var n := |ready0| - 1;
    var current := ready0[n];
    PopStep(edges, nodes, done0, ready0, remaining0);
    done := done0 + [current];
    DistinctFits(done, nodes);
    SuccsKnown(edges, current, nodes);
    ready, remaining := CountDown(edges, nodes, done, ready0[..n], remaining0, succs[current]);
    CountedDown(edges, nodes, done, ready, remaining);
  }

  lemma CountedDown(edges: seq<Edge>, nodes: set<Index>, order: seq<Index>, ready: seq<Index>,
                    remaining: map<Index, int>)
    requires CountdownInv(edges, nodes, order, ready, remaining, [])
    requires Distinct(order) && (forall i <- order :: i in nodes) && forall k: nat | k < |order| ::
               Supplied(edges, order, k)
    ensures KahnInv(edges, nodes, order, ready, remaining)
  {
  }

  /** Every listed consumer waits for one unit less. */
  method CountDown(ghost edges: seq<Edge>, ghost nodes: set<Index>, ghost order: seq<Index>, ready0: seq<Index>,
                   remaining0: map<Index, int>, consumers: seq<Index>)
    returns (ready: seq<Index>, remaining: map<Index, int>)
    requires CountdownInv(edges, nodes, order, ready0, remaining0, consumers)
    requires forall c <- consumers :: c in nodes
    ensures CountdownInv(edges, nodes, order, ready, remaining, [])
  {
    ready, remaining := ready0, remaining0;
    var k := 0;
    assert consumers[0..] == consumers;
    while k < |consumers|
      invariant 0 <= k <= |consumers|
      invariant CountdownInv(edges, nodes, order, ready, remaining, consumers[k..])
    {
      var consumer := consumers[k];
      CountdownStep(edges, nodes, order, ready, remaining, consumers[k..]);
      assert consumers[k..][1..] == consumers[k + 1..];
      remaining := remaining[consumer := remaining[consumer] - 1];
      if remaining[consumer] == 0 {
        ready := ready + [consumer];
      }
      k := k + 1;
    }
  }

  lemma {:induction false} SuccsKnown(edges: seq<Edge>, p: Index, nodes: set<Index>)
    requires forall e <- edges :: e.consumer in nodes
    ensures forall c <- SuccsOf(edges, p) :: c in nodes
  {
    if edges != [] { SuccsKnown(edges[1..], p, nodes); }
  }

  /** The units nobody holds back, in the order of the report. */
  method ReadyAtFirst(units: seq<Unit>, remaining: map<Index, int>) returns (ready: seq<Index>)
    requires remaining.Keys == Indices(units)
    ensures Distinct(ready) && forall c :: c in ready <==> c in Indices(units) && remaining[c] == 0
  {
    ready := [];
    var k := 0;
    while k < |units|
      invariant 0 <= k <= |units|
      invariant Distinct(ready)
      invariant forall c :: c in ready <==> c in Indices(units[..k]) && c in remaining && remaining[c] == 0
    {
      assert units[..k + 1] == units[..k] + [units[k]];
      assert Indices(units[..k + 1]) == Indices(units[..k]) + {units[k].i};
      assert units[k] in units;
      if units[k].i !in ready && remaining[units[k].i] == 0 {
        DistinctAppend(ready, units[k].i);
        ready := ready + [units[k].i];
      }
      k := k + 1;
    }
    assert units[..k] == units;
  }

  // ---------------------------------------------------------------------------------
  // The schedule.

  /** A unit's duration and metadata time, from another run's clock where that has them. */
  function Times(u: Unit, durations: map<UnitKey, (real, Option<real>)>): (real, Option<real>) {
    if KeyOf(u) in durations then durations[KeyOf(u)] else (u.duration, u.rmetaTime)
  }

  /** When metadata is out; a time of zero counts as none, and then it comes with the rest. */
  function MetaTime(times: (real, Option<real>)): real {
    if times.1.Some? && times.1.value != 0.0 then times.1.value else times.0
  }

  datatype Clock = Clock(full: map<Index, real>, meta: map<Index, real>)

  ghost predicate ClockFor(clock: Clock, units: seq<Unit>, durations: map<UnitKey, (real, Option<real>)>) {
    && clock.full.Keys == clock.meta.Keys == Indices(units)
    && forall u <- units :: clock.full[u.i] == Times(u, durations).0 && clock.meta[u.i] == MetaTime(Times(u, durations))
  }

  /** How long after the start of its producer an edge lets its consumer start. */
  function Release(e: Edge, clock: Clock): real
    requires e.producer in clock.full && e.producer in clock.meta
  {
    if e.kind.Rmeta? then clock.meta[e.producer] else clock.full[e.producer]
  }

  datatype Solution = Solution(
    order: seq<Index>, start: map<Index, real>, finish: map<Index, real>, bestPred: map<Index, Option<Index>>,
        dur: map<Index, real>)

  predicate InGraph(edges: seq<Edge>, nodes: set<Index>) {
    forall e <- edges :: e.producer in nodes && e.consumer in nodes
  }

  /** `e` is an edge that lets `u` start exactly when it does. */
  predicate Gates(e: Edge, u: Index, clock: Clock, start: map<Index, real>) {
    && e.consumer == u && u in start && e.producer in start && e.producer in clock.full && e.producer in clock.meta
    && start[e.producer] + Release(e, clock) == start[u]
  }

  /** The entry of `u` in the schedule is right, given those of its producers. */
  ghost predicate EntryOk(edges: seq<Edge>, clock: Clock, start: map<Index, real>, finish: map<Index, real>,
                          bestPred: map<Index, Option<Index>>, u: Index)
    requires u in clock.full
  {
    && u in start && u in finish && u in bestPred
    && start[u] >= 0.0 && finish[u] == start[u] + clock.full[u]
    && (forall e <- edges | e.consumer == u ::
          e.producer in start && e.producer in clock.full && e.producer in clock.meta
              && start[e.producer] + Release(e, clock) <= start[u])
    && match bestPred[u]
       case None => start[u] == 0.0
       case Some(p) => start[u] > 0.0 && exists e :: e in edges && e.producer == p && Gates(e, u, clock, start)
  }

  ghost predicate IsSchedule(edges: seq<Edge>, nodes: set<Index>, clock: Clock, s: Solution) {
    && clock.full.Keys == clock.meta.Keys == nodes == s.start.Keys == s.finish.Keys == s.bestPred.Keys
    && InGraph(edges, nodes)
    && forall u <- nodes :: EntryOk(edges, clock, s.start, s.finish, s.bestPred, u)
  }

  /** A chain of edges ending at `u`; the empty chain ends anywhere. */
  predicate IsPath(edges: seq<Edge>, path: seq<Edge>, u: Index) {
    && (forall e <- path :: e in edges)
    && (forall k: nat | k < |path| - 1 :: path[k].consumer == path[k + 1].producer)
    && (path != [] ==> path[|path| - 1].consumer == u)
  }

  predicate Priced(path: seq<Edge>, clock: Clock) {
    forall e <- path :: e.producer in clock.full && e.producer in clock.meta
  }

  /** The time a chain of edges takes before its end can start. */
  function Weight(path: seq<Edge>, clock: Clock): real
    requires Priced(path, clock)
  {
    if path == [] then 0.0 else Weight(path[..|path| - 1], clock) + Release(path[|path| - 1], clock)
  }

  lemma LastEdge(edges: seq<Edge>, path: seq<Edge>, u: Index)
    requires IsPath(edges, path, u) && path != []
    ensures var n := |path| - 1;
            path[n] in edges && path[n].consumer == u && IsPath(edges, path[..n], path[n].producer)
                && path == path[..n] + [path[n]]
  {
    var n := |path| - 1;
    assert path[n] in path;
    forall e <- path[..n] ensures e in edges { assert e in path; }
  }

  lemma {:induction false} PathBound(edges: seq<Edge>, nodes: set<Index>, clock: Clock, s: Solution, path: seq<Edge>,
                                     u: Index)
    requires IsSchedule(edges, nodes, clock, s) && u in nodes && IsPath(edges, path, u)
    ensures Priced(path, clock)
    ensures Weight(path, clock) <= s.start[u]
  {
    assert EntryOk(edges, clock, s.start, s.finish, s.bestPred, u);
    if path != [] {
      var last := path[|path| - 1];
      LastEdge(edges, path, u);
      PathBound(edges, nodes, clock, s, path[..|path| - 1], last.producer);
    }
  }

  lemma ProducerComesFirst(edges: seq<Edge>, nodes: set<Index>, order: seq<Index>, e: Edge, k: nat) returns (i: nat)
    requires IsTopological(order, edges, nodes) && e in edges && k < |order| && order[k] == e.consumer
    ensures i < k && order[i] == e.producer
  {
    assert (e.producer, e.consumer) in Relation(edges);
    var a, b :| 0 <= a < b < |order| && order[a] == e.producer && order[b] == e.consumer;
    assert b == k;
    i := a;
  }

  lemma PathExtends(edges: seq<Edge>, path: seq<Edge>, e: Edge, clock: Clock)
    requires IsPath(edges, path, e.producer) && Priced(path, clock)
    requires e in edges && e.producer in clock.full && e.producer in clock.meta
    ensures IsPath(edges, path + [e], e.consumer) && Priced(path + [e], clock)
    ensures Weight(path + [e], clock) == Weight(path, clock) + Release(e, clock)
  {
    assert (path + [e])[..|path|] == path;
  }

  /** Walking back over the gating predecessors gives a chain that takes all of `start[u]`. */
  lemma {:induction false} PathAttained(edges: seq<Edge>, nodes: set<Index>, clock: Clock, s: Solution, k: nat)
    returns (path: seq<Edge>)
    requires IsSchedule(edges, nodes, clock, s) && IsTopological(s.order, edges, nodes) && k < |s.order|
    ensures s.order[k] in nodes && IsPath(edges, path, s.order[k])
    ensures Priced(path, clock)
    ensures Weight(path, clock) == s.start[s.order[k]]
    decreases k
  {
    var u := s.order[k];
    assert u in Members(s.order);
    assert EntryOk(edges, clock, s.start, s.finish, s.bestPred, u);
    match s.bestPred[u]
    case None => path := [];
    case Some(p) =>
      var e :| e in edges && e.producer == p && Gates(e, u, clock, s.start);
      var i := ProducerComesFirst(edges, nodes, s.order, e, k);
      var before := PathAttained(edges, nodes, clock, s, i);
      PathExtends(edges, before, e, clock);
      path := before + [e];
  }

  /** The earliest start of every unit is the longest of all chains of release times that end
      at it, and its finish adds its own duration. */
  lemma EarliestIsLongestPath(edges: seq<Edge>, nodes: set<Index>, clock: Clock, s: Solution, u: Index)
    requires IsSchedule(edges, nodes, clock, s) && IsTopological(s.order, edges, nodes) && u in nodes
    ensures forall path | IsPath(edges, path, u) ::
              Priced(path, clock) && Weight(path, clock) <= s.start[u]
    ensures exists path :: IsPath(edges, path, u) && Priced(path, clock) && Weight(path, clock) == s.start[u]
    ensures s.finish[u] == s.start[u] + clock.full[u]
  {
    forall path | IsPath(edges, path, u)
      ensures Priced(path, clock) && Weight(path, clock) <= s.start[u]
    {
      PathBound(edges, nodes, clock, s, path, u);
    }
    assert u in Members(s.order);
    var k: nat :| k < |s.order| && s.order[k] == u;
    var longest := PathAttained(edges, nodes, clock, s, k);
    assert EntryOk(edges, clock, s.start, s.finish, s.bestPred, u);
  }

  lemma IndicesGrow(units: seq<Unit>, k: nat)
    requires k < |units|
    ensures Indices(units[..k + 1]) == Indices(units[..k]) + {units[k].i}
  {
    assert units[..k + 1] == units[..k] + [units[k]];
  }

  lemma ClockGrows(clock: Clock, units: seq<Unit>, k: nat, durations: map<UnitKey, (real, Option<real>)>, clock': Clock)
    requires k < |units| && Distinct(IndexList(units)) && ClockFor(clock, units[..k], durations)
    requires var i, times := units[k].i, Times(units[k], durations);
             clock' == Clock(clock.full[i := times.0], clock.meta[i := MetaTime(times)])
    ensures ClockFor(clock', units[..k + 1], durations)
  {
    IndicesGrow(units, k);
    forall u <- units[..k + 1]
      ensures u.i in clock'.full && clock'.full[u.i] == Times(u, durations).0
      ensures u.i in clock'.meta && clock'.meta[u.i] == MetaTime(Times(u, durations))
    {
      var j: nat :| j < k + 1 && units[j] == u;
      if j < k {
        assert IndexList(units)[j] != IndexList(units)[k];
        assert units[..k][j] == u;
      }
    }
  }

  method ReadClock(units: seq<Unit>, durations: map<UnitKey, (real, Option<real>)>) returns (clock: Clock)
    ensures clock.full.Keys == clock.meta.Keys == Indices(units)
    ensures Distinct(IndexList(units)) ==> ClockFor(clock, units, durations)
  {
    clock := Clock(map[], map[]);
    var k := 0;
    while k < |units|
      invariant 0 <= k <= |units|
      invariant clock.full.Keys == clock.meta.Keys == Indices(units[..k])
      invariant Distinct(IndexList(units)) ==> ClockFor(clock, units[..k], durations)
    {
      var times := Times(units[k], durations);
      ghost var before := clock;
      clock := Clock(clock.full[units[k].i := times.0], clock.meta[units[k].i := MetaTime(times)]);
      IndicesGrow(units, k);
      if Distinct(IndexList(units)) { ClockGrows(before, units, k, durations, clock); }
      k := k + 1;
    }
    assert units[..k] == units;
  }

  /** How far the producers of one unit have been looked at: `earliest` is their latest release
      so far, and `gate` the one that set it. */
  ghost predicate LookedAt(edges: seq<Edge>, clock: Clock, start: map<Index, real>, u: Index, seen: seq<(Index, Kind)>,
                           earliest: real, gate: Option<Index>)
  {
    && earliest >= 0.0
    && (forall q <- seen ::
        q.0 in start && q.0 in clock.full && q.0 in clock.meta
            && start[q.0] + Release(Edge(q.0, q.1, u), clock) <= earliest)
    && match gate
       case None => earliest == 0.0
       case Some(p) => earliest > 0.0 && exists q <- seen ::
           q.0 == p && start[p] + Release(Edge(p, q.1, u), clock) == earliest
  }

  lemma {:induction false} PredsAreEdges(edges: seq<Edge>, u: Index)
    ensures forall q <- PredsOf(edges, u) :: Edge(q.0, q.1, u) in edges
    ensures forall e <- edges | e.consumer == u :: (e.producer, e.kind) in PredsOf(edges, u)
  {
    if edges != [] {
      PredsAreEdges(edges[1..], u);
      forall e <- edges | e.consumer == u ensures (e.producer, e.kind) in PredsOf(edges, u) {
        if e != edges[0] { assert e in edges[1..]; }
      }
    }
  }

  /** When producer and kind `q` let `u` start. */
  function ReadyAt(q: (Index, Kind), u: Index, clock: Clock, start: map<Index, real>): real
    requires q.0 in start && q.0 in clock.full && q.0 in clock.meta
  {
    start[q.0] + Release(Edge(q.0, q.1, u), clock)
  }

  lemma LookAtNext(edges: seq<Edge>, clock: Clock, start: map<Index, real>, u: Index, seen: seq<(Index, Kind)>,
                   earliest: real, gate: Option<Index>, q: (Index, Kind))
    requires LookedAt(edges, clock, start, u, seen, earliest, gate)
    requires q.0 in start && q.0 in clock.full && q.0 in clock.meta
    ensures var readyAt := ReadyAt(q, u, clock, start);
            if readyAt > earliest then LookedAt(edges, clock, start, u, seen + [q], readyAt, Some(q.0))
            else LookedAt(edges, clock, start, u, seen + [q], earliest, gate)
  {
    if ReadyAt(q, u, clock, start) > earliest {
      assert q in seen + [q];
    } else if gate.Some? {
      var r :| r in seen && r.0 == gate.value
          && start[gate.value] + Release(Edge(gate.value, r.1, u), clock) == earliest;
      assert r in seen + [q];
    }
  }

  /** Looks at the producers of `u` one after another. */
  method Earliest(ghost edges: seq<Edge>, clock: Clock, start: map<Index, real>, finish: map<Index, real>,
                  metaFinish: map<Index, real>, u: Index, preds: seq<(Index, Kind)>)
    returns (earliest: real, gate: Option<Index>)
    requires start.Keys == finish.Keys == metaFinish.Keys && start.Keys <= clock.full.Keys
             && start.Keys <= clock.meta.Keys
    requires forall p <- start.Keys ::
               finish[p] == start[p] + clock.full[p] && metaFinish[p] == start[p] + clock.meta[p]
    requires forall q <- preds :: q.0 in start
    ensures LookedAt(edges, clock, start, u, preds, earliest, gate)
  {
    earliest, gate := 0.0, None;
    var k := 0;
    assert forall j | 0 <= j < |preds| :: preds[j].0 in start.Keys;
    while k < |preds|
      invariant 0 <= k <= |preds|
      invariant LookedAt(edges, clock, start, u, preds[..k], earliest, gate)
    {
      var (producer, kind) := preds[k];
      var readyAt := if kind.Rmeta? then metaFinish[producer] else finish[producer];
      assert preds[..k + 1] == preds[..k] + [preds[k]];
      LookAtNext(edges, clock, start, u, preds[..k], earliest, gate, preds[k]);
      if readyAt > earliest {
        earliest, gate := readyAt, Some(producer);
      }
      k := k + 1;
    }
    assert preds[..k] == preds;
  }

  ghost predicate Covers(clock: Clock, s: Solution, metaFinish: map<Index, real>, done: set<Index>) {
    && s.start.Keys == s.finish.Keys == s.bestPred.Keys == metaFinish.Keys == done
    && done <= clock.full.Keys && done <= clock.meta.Keys
    && forall u <- done :: metaFinish[u] == s.start[u] + clock.meta[u]
  }

  /** The schedule computed so far covers `done`. */
  ghost predicate PartSchedule(edges: seq<Edge>, clock: Clock, s: Solution, metaFinish: map<Index, real>,
                               done: set<Index>)
  {
    && Covers(clock, s, metaFinish, done)
    && forall u <- done :: EntryOk(edges, clock, s.start, s.finish, s.bestPred, u)
  }

  /** An entry stays right when the schedule grows by other units. */
  lemma EntryKept(edges: seq<Edge>, clock: Clock, s: Solution, s': Solution, v: Index)
    requires v in clock.full && EntryOk(edges, clock, s.start, s.finish, s.bestPred, v)
    requires s.start.Keys <= s'.start.Keys && forall w <- s.start.Keys :: s'.start[w] == s.start[w]
    requires v in s'.finish && v in s'.bestPred && s'.finish[v] == s.finish[v] && s'.bestPred[v] == s.bestPred[v]
    ensures EntryOk(edges, clock, s'.start, s'.finish, s'.bestPred, v)
  {
    if s.bestPred[v].Some? {
      var e :| e in edges && e.producer == s.bestPred[v].value && Gates(e, v, clock, s.start);
      assert Gates(e, v, clock, s'.start);
    }
  }

  /** What was found by looking at the producers of `u` is its entry. */
  lemma EntryNew(edges: seq<Edge>, clock: Clock, start: map<Index, real>, s': Solution, u: Index, earliest: real,
                 gate: Option<Index>)
    requires u !in start && u in clock.full && LookedAt(edges, clock, start, u, PredsOf(edges, u), earliest, gate)
    requires s'.start == start[u := earliest]
    requires u in s'.finish && s'.finish[u] == earliest + clock.full[u] && u in s'.bestPred && s'.bestPred[u] == gate
    ensures EntryOk(edges, clock, s'.start, s'.finish, s'.bestPred, u)
  {
    PredsAreEdges(edges, u);
    forall e <- edges | e.consumer == u
      ensures e.producer in s'.start && e.producer in clock.full && e.producer in clock.meta
              && s'.start[e.producer] + Release(e, clock) <= s'.start[u]
    {
      assert (e.producer, e.kind) in PredsOf(edges, u);
      assert Edge(e.producer, e.kind, u) == e;
    }
    if gate.Some? {
      var q :| q in PredsOf(edges, u) && q.0 == gate.value
          && start[gate.value] + Release(Edge(gate.value, q.1, u), clock) == earliest;
      var e := Edge(q.0, q.1, u);
      assert e in edges && Gates(e, u, clock, s'.start);
    }
  }

  /** Entering `u` leaves the entries before it right. */
  lemma EntryAdded(edges: seq<Edge>, clock: Clock, s: Solution, metaFinish: map<Index, real>, done: set<Index>,
                   u: Index, earliest: real, gate: Option<Index>, s': Solution)
    requires PartSchedule(edges, clock, s, metaFinish, done) && u !in done && u in clock.full && u in clock.meta
    requires LookedAt(edges, clock, s.start, u, PredsOf(edges, u), earliest, gate)
    requires s' == s.(start := s.start[u := earliest], finish := s.finish[u := earliest + clock.full[u]],
                      bestPred := s.bestPred[u := gate])
    ensures PartSchedule(edges, clock, s', metaFinish[u := earliest + clock.meta[u]], done + {u})
  {
    CoversMore(clock, s, metaFinish, done, u, earliest, gate, s');
    forall v <- done + {u} ensures EntryOk(edges, clock, s'.start, s'.finish, s'.bestPred, v) {
      EntryAt(edges, clock, s, metaFinish, done, u, earliest, gate, s', v);
    }
  }

  lemma CoversMore(clock: Clock, s: Solution, metaFinish: map<Index, real>, done: set<Index>, u: Index, earliest: real,
                   gate: Option<Index>, s': Solution)
    requires Covers(clock, s, metaFinish, done) && u !in done && u in clock.full && u in clock.meta
    requires s' == s.(start := s.start[u := earliest], finish := s.finish[u := earliest + clock.full[u]],
                      bestPred := s.bestPred[u := gate])
    ensures Covers(clock, s', metaFinish[u := earliest + clock.meta[u]], done + {u})
  {
  }

  lemma EntryAt(edges: seq<Edge>, clock: Clock, s: Solution, metaFinish: map<Index, real>, done: set<Index>, u: Index,
                earliest: real, gate: Option<Index>, s': Solution, v: Index)
    requires PartSchedule(edges, clock, s, metaFinish, done) && u !in done && u in clock.full && u in clock.meta
    requires LookedAt(edges, clock, s.start, u, PredsOf(edges, u), earliest, gate)
    requires s' == s.(start := s.start[u := earliest], finish := s.finish[u := earliest + clock.full[u]],
                      bestPred := s.bestPred[u := gate])
    requires v in done + {u}
    ensures v in clock.full && EntryOk(edges, clock, s'.start, s'.finish, s'.bestPred, v)
  {
    if v == u {
      EntryNew(edges, clock, s.start, s', u, earliest, gate);
    } else {
      EntryKept(edges, clock, s, s', v);
    }
  }

  // ---------------------------------------------------------------------------------
  // The schedule in terms of the report.

  /** How long a unit takes: another run's time for it, or its own. */
  function FullTime(u: Unit, durations: map<UnitKey, (real, Option<real>)>): real {
    if (u.name, u.mode, u.target) in durations then durations[(u.name, u.mode, u.target)].0 else u.duration
  }

  /** How long until its metadata is out, if there is any before the unit is done. */
  function MetadataTime(u: Unit, durations: map<UnitKey, (real, Option<real>)>): real {
    var key := (u.name, u.mode, u.target);
    var known := if key in durations then durations[key].1 else u.rmetaTime;
    if known == None || known == Some(0.0) then FullTime(u, durations) else known.value
  }

  /** Nothing starts before what it waits for: the end of a unit that unblocks it, or the metadata of
      one that unblocks it with its metadata. */
  ghost predicate NothingTooEarly(units: seq<Unit>, durations: map<UnitKey, (real, Option<real>)>, s: Solution) {
    forall p <- units ::
      && p.i in s.start && p.i in s.finish && s.finish[p.i] == s.start[p.i] + FullTime(p, durations)
      && (forall c <- p.unblocked | c in s.start :: s.start[p.i] + FullTime(p, durations) <= s.start[c])
      && forall c <- p.unblockedRmeta | c in s.start :: s.start[p.i] + MetadataTime(p, durations) <= s.start[c]
  }

  /** `p` unblocks `c` exactly when that starts. */
  predicate Unblocks(p: Unit, c: Index, durations: map<UnitKey, (real, Option<real>)>, s: Solution) {
    && p.i in s.start && c in s.start
    && ((c in p.unblocked && s.start[c] == s.start[p.i] + FullTime(p, durations))
        || (c in p.unblockedRmeta && s.start[c] == s.start[p.i] + MetadataTime(p, durations)))
  }

  /** Nothing starts later than it must: at zero, or when the gating unit unblocks it. */
  ghost predicate NothingTooLate(units: seq<Unit>, durations: map<UnitKey, (real, Option<real>)>, s: Solution) {
    forall c <- s.start ::
      && c in s.bestPred && (s.bestPred[c] == None <==> s.start[c] == 0.0)
      && (s.bestPred[c].Some? ==>
            exists p :: p in units && p.i == s.bestPred[c].value && Unblocks(p, c, durations, s))
  }

  lemma {:induction false} EdgesToMean(producer: Index, kind: Kind, consumers: seq<Index>, known: set<Index>, e: Edge)
    ensures e in EdgesTo(producer, kind, consumers, known)
       <==> e.producer == producer && e.kind == kind && e.consumer in consumers && e.consumer in known
  {
    if consumers != [] { EdgesToMean(producer, kind, consumers[1..], known, e); }
  }

  /** The unit unblocks the consumer, wholly or with its metadata. */
  predicate Declares(u: Unit, e: Edge) {
    u.i == e.producer && e.consumer in if e.kind.Full? then u.unblocked else u.unblockedRmeta
  }

  /** An edge is a unit of the report unblocking another. */
  lemma {:induction false} EdgesMean(units: seq<Unit>, known: set<Index>, e: Edge)
    ensures e in Edges(units, known)
       <==> e.consumer in known && exists u :: u in units && Declares(u, e)
  {
    if units != [] {
      var u := units[0];
      EdgesToMean(u.i, Full, u.unblocked, known, e);
      EdgesToMean(u.i, Rmeta, u.unblockedRmeta, known, e);
      EdgesMean(units[1..], known, e);
      assert forall v :: v in units <==> v == u || v in units[1..];
      assert e in UnitEdges(u, known) <==> Declares(u, e) && e.consumer in known;
    }
  }

  lemma ScheduleIsNotTooEarly(units: seq<Unit>, durations: map<UnitKey, (real, Option<real>)>, clock: Clock,
                              s: Solution)
    requires ClockFor(clock, units, durations) && IsSchedule(GraphEdges(units), Indices(units), clock, s)
    ensures NothingTooEarly(units, durations, s)
  {
    forall p <- units
      ensures p.i in s.start && p.i in s.finish && s.finish[p.i] == s.start[p.i] + FullTime(p, durations)
      ensures forall c <- p.unblocked | c in s.start :: s.start[p.i] + FullTime(p, durations) <= s.start[c]
      ensures forall c <- p.unblockedRmeta | c in s.start :: s.start[p.i] + MetadataTime(p, durations) <= s.start[c]
    {
      assert p.i in Indices(units) && EntryOk(GraphEdges(units), clock, s.start, s.finish, s.bestPred, p.i);
      forall c <- p.unblocked | c in s.start ensures s.start[p.i] + FullTime(p, durations) <= s.start[c] {
        EdgeHolds(units, durations, clock, s, p, Full, c);
      }
      forall c <- p.unblockedRmeta | c in s.start ensures s.start[p.i] + MetadataTime(p, durations) <= s.start[c] {
        EdgeHolds(units, durations, clock, s, p, Rmeta, c);
      }
    }
  }

  lemma EdgeHolds(units: seq<Unit>, durations: map<UnitKey, (real, Option<real>)>, clock: Clock, s: Solution, p: Unit,
                  kind: Kind, c: Index)
    requires ClockFor(clock, units, durations) && IsSchedule(GraphEdges(units), Indices(units), clock, s)
    requires p in units && c in s.start && c in if kind.Full? then p.unblocked else p.unblockedRmeta
    ensures p.i in s.start
    ensures s.start[p.i] + (if kind.Full? then FullTime(p, durations) else MetadataTime(p, durations)) <= s.start[c]
  {
    assert Declares(p, Edge(p.i, kind, c));
    EdgesMean(units, Indices(units), Edge(p.i, kind, c));
    assert EntryOk(GraphEdges(units), clock, s.start, s.finish, s.bestPred, c);
  }

  lemma GateUnblocks(units: seq<Unit>, durations: map<UnitKey, (real, Option<real>)>, clock: Clock, s: Solution,
                     e: Edge)
    returns (p: Unit)
    requires ClockFor(clock, units, durations) && e in GraphEdges(units) && Gates(e, e.consumer, clock, s.start)
    ensures p in units && p.i == e.producer && Unblocks(p, e.consumer, durations, s)
  {
    EdgesMean(units, Indices(units), e);
    p :| p in units && Declares(p, e);
  }

  lemma EntryIsNotTooLate(units: seq<Unit>, durations: map<UnitKey, (real, Option<real>)>, clock: Clock, s: Solution,
                          c: Index)
    requires ClockFor(clock, units, durations) && IsSchedule(GraphEdges(units), Indices(units), clock, s)
    requires c in s.start
    ensures c in s.bestPred && (s.bestPred[c] == None <==> s.start[c] == 0.0)
    ensures s.bestPred[c].Some? ==> exists p :: p in units && p.i == s.bestPred[c].value && Unblocks(p, c, durations, s)
  {
    assert EntryOk(GraphEdges(units), clock, s.start, s.finish, s.bestPred, c);
    if s.bestPred[c].Some? {
      var e := GateOf(GraphEdges(units), Indices(units), clock, s, c);
      var p := GateUnblocks(units, durations, clock, s, e);
    }
  }

  lemma ScheduleIsNotTooLate(units: seq<Unit>, durations: map<UnitKey, (real, Option<real>)>, clock: Clock, s: Solution)
    requires ClockFor(clock, units, durations) && IsSchedule(GraphEdges(units), Indices(units), clock, s)
    ensures NothingTooLate(units, durations, s)
  {
    forall c <- s.start
      ensures c in s.bestPred && (s.bestPred[c] == None <==> s.start[c] == 0.0)
      ensures s.bestPred[c].Some? ==>
                exists p :: p in units && p.i == s.bestPred[c].value && Unblocks(p, c, durations, s)
    {
      EntryIsNotTooLate(units, durations, clock, s, c);
    }
  }

  /** The schedule that starts everything as soon as its producers allow; `None` stands for the
      exit where the units have no order. */
  method Solve(units: seq<Unit>, durations: map<UnitKey, (real, Option<real>)>)
    returns (solution: Option<Solution>, ghost clock: Clock)
    ensures solution.Some? <==> Distinct(IndexList(units)) && !Cyclic(Relation(GraphEdges(units)))
    ensures solution.Some? ==>
              && ClockFor(clock, units, durations)
              && IsTopological(solution.value.order, GraphEdges(units), Indices(units))
              && IsSchedule(GraphEdges(units), Indices(units), clock, solution.value)
              && solution.value.dur == clock.full
    ensures solution.Some? ==>
              NothingTooEarly(units, durations, solution.value) && NothingTooLate(units, durations, solution.value)
  {
    ghost var edges, nodes := GraphEdges(units), Indices(units);
    EdgesKnown(units, nodes);
    var preds, succs := BuildEdges(units);
    var times := ReadClock(units, durations);
    clock := times;
    var order := TopologicalOrder(units, preds, succs);
    if order.None? {
      return None, clock;
    }
    var s := Solution(order.value, map[], map[], map[], times.full);
    var metaFinish: map<Index, real> := map[];
    var k := 0;
    while k < |order.value|
      invariant 0 <= k <= |order.value|
      invariant s.order == order.value && s.dur == times.full
      invariant PartSchedule(edges, times, s, metaFinish, Members(order.value[..k]))
    {
      var u := order.value[k];
      OrderedProducers(edges, nodes, order.value, k);
      var earliest, gate := Earliest(edges, times, s.start, s.finish, metaFinish, u, preds[u]);
      ghost var before := s;
      s := s.(start := s.start[u := earliest], finish := s.finish[u := earliest + times.full[u]],
              bestPred := s.bestPred[u := gate]);
      EntryAdded(edges, times, before, metaFinish, Members(order.value[..k]), u, earliest, gate, s);
      metaFinish := metaFinish[u := earliest + times.meta[u]];
      k := k + 1;
    }
    assert order.value[..k] == order.value;
    ScheduleIsNotTooEarly(units, durations, clock, s);
    ScheduleIsNotTooLate(units, durations, clock, s);
    return Some(s), clock;
  }

  lemma OrderedProducers(edges: seq<Edge>, nodes: set<Index>, order: seq<Index>, k: nat)
    requires IsTopological(order, edges, nodes) && k < |order|
    ensures order[k] in nodes && order[k] !in Members(order[..k])
    ensures Members(order[..k + 1]) == Members(order[..k]) + {order[k]}
    ensures forall q <- PredsOf(edges, order[k]) :: q.0 in Members(order[..k])
  {
    assert order[k] in Members(order);
    assert order[..k + 1] == order[..k] + [order[k]];
    PredsAreEdges(edges, order[k]);
    forall q <- PredsOf(edges, order[k]) ensures q.0 in Members(order[..k]) {
      var i := ProducerComesFirst(edges, nodes, order, Edge(q.0, q.1, order[k]), k);
      assert order[..k][i] == q.0;
    }
  }

  // ---------------------------------------------------------------------------------
  // The critical path.

  /** Each unit of `chain` is gated by the one before it, the first by none. */
  ghost predicate IsGatedChain(chain: seq<Index>, s: Solution) {
    && chain != [] && (forall k | 0 <= k < |chain| :: chain[k] in s.bestPred)
    && s.bestPred[chain[0]] == None
    && forall k: nat | k < |chain| - 1 :: s.bestPred[chain[k + 1]] == Some(chain[k])
  }

  /** The unit that finishes last, the first in order among equals; `None` for an empty report. */
  method LastToFinish(order: seq<Index>, finish: map<Index, real>) returns (last: Option<Index>)
    requires forall j | 0 <= j < |order| :: order[j] in finish
    ensures order == [] <==> last == None
    ensures last.Some? ==> last.value in order && last.value in finish
                           && forall j | 0 <= j < |order| :: finish[order[j]] <= finish[last.value]
  {
    if order == [] {
      return None;
    }
    var best := order[0];
    for k := 1 to |order|
      invariant best in order && best in finish
      invariant forall j | 0 <= j < k :: finish[order[j]] <= finish[best]
    {
      if finish[order[k]] > finish[best] {
        best := order[k];
      }
    }
    last := Some(best);
  }

  method FindCriticalPath(ghost edges: seq<Edge>, ghost nodes: set<Index>, ghost clock: Clock, s: Solution)
    returns (chain: Option<seq<Index>>)
    requires IsSchedule(edges, nodes, clock, s) && IsTopological(s.order, edges, nodes)
    ensures chain == None <==> nodes == {}
    ensures chain.Some? ==>
              && IsGatedChain(chain.value, s)
              && chain.value[|chain.value| - 1] in nodes
              && forall u <- nodes :: s.finish[u] <= s.finish[chain.value[|chain.value| - 1]]
  {
    forall j | 0 <= j < |s.order| ensures s.order[j] in nodes { assert s.order[j] in Members(s.order); }
    var last := LastToFinish(s.order, s.finish);
    if last.None? {
      assert Members(s.order) == {};
      return None;
    }
    assert last.value in Members(s.order);
    forall u <- nodes ensures s.finish[u] <= s.finish[last.value] {
      assert u in Members(s.order);
    }
    ghost var position: nat :| position < |s.order| && s.order[position] == last.value;
    var backwards := WalkBack(edges, nodes, clock, s, last.value, position);
    chain := Some(Reverse(backwards));
    forall k: nat | k < |chain.value| - 1 ensures s.bestPred[chain.value[k + 1]] == Some(chain.value[k]) {
      assert GatedBy(s, backwards, |backwards| - 2 - k);
    }
  }

  /** Entry `k` of a walk back is gated by the one after it. */
  ghost predicate GatedBy(s: Solution, backwards: seq<Index>, k: int) {
    0 <= k < |backwards| - 1 && backwards[k] in s.bestPred && s.bestPred[backwards[k]] == Some(backwards[k + 1])
  }

  /** Follows the gating predecessors from `last` until a unit has none. */
  method WalkBack(ghost edges: seq<Edge>, ghost nodes: set<Index>, ghost clock: Clock, s: Solution, last: Index,
                  ghost at: nat) returns (backwards: seq<Index>)
    requires IsSchedule(edges, nodes, clock, s) && IsTopological(s.order, edges, nodes)
    requires at < |s.order| && s.order[at] == last && last in nodes
    ensures backwards != [] && backwards[0] == last && forall k | 0 <= k < |backwards| :: backwards[k] in nodes
    ensures s.bestPred[backwards[|backwards| - 1]] == None
    ensures forall k | 0 <= k < |backwards| - 1 :: GatedBy(s, backwards, k)
  {
    backwards := [last];
    var current := last;
    ghost var position: nat := at;
    while s.bestPred[current].Some?
      invariant backwards != [] && backwards[0] == last && backwards[|backwards| - 1] == current
      invariant position < |s.order| && s.order[position] == current && current in nodes
      invariant forall k | 0 <= k < |backwards| :: backwards[k] in nodes
      invariant forall k | 0 <= k < |backwards| - 1 :: GatedBy(s, backwards, k)
      decreases position
    {
      position := StepBack(edges, nodes, clock, s, current, position);
      ghost var shorter := backwards;
      current := s.bestPred[current].value;
      backwards := backwards + [current];
      forall k | 0 <= k < |backwards| - 1 ensures GatedBy(s, backwards, k) {
        if k < |shorter| - 1 { assert GatedBy(s, shorter, k); }
      }
    }
  }

  /** The gating predecessor comes earlier in the order. */
  lemma StepBack(edges: seq<Edge>, nodes: set<Index>, clock: Clock, s: Solution, current: Index, position: nat)
    returns (earlier: nat)
    requires IsSchedule(edges, nodes, clock, s) && IsTopological(s.order, edges, nodes)
    requires position < |s.order| && s.order[position] == current && current in nodes && s.bestPred[current].Some?
    ensures earlier < position && s.order[earlier] == s.bestPred[current].value && s.bestPred[current].value in nodes
  {
    var e := GateOf(edges, nodes, clock, s, current);
    earlier := ProducerComesFirst(edges, nodes, s.order, e, position);
  }

  /** The edge by which the gating predecessor of `u` holds it back. */
  lemma GateOf(edges: seq<Edge>, nodes: set<Index>, clock: Clock, s: Solution, u: Index) returns (e: Edge)
    requires IsSchedule(edges, nodes, clock, s) && u in nodes && s.bestPred[u].Some?
    ensures e in edges && e.producer == s.bestPred[u].value && e.producer in nodes && Gates(e, u, clock, s.start)
  {
    assert EntryOk(edges, clock, s.start, s.finish, s.bestPred, u);
    e :| e in edges && e.producer == s.bestPred[u].value && Gates(e, u, clock, s.start);
  }

  /** The edges along a gated chain, up to its unit `n`. */
  lemma {:induction false} ChainEdges(edges: seq<Edge>, nodes: set<Index>, clock: Clock, s: Solution, chain: seq<Index>,
                                      n: nat) returns (path: seq<Edge>)
    requires IsSchedule(edges, nodes, clock, s) && IsGatedChain(chain, s) && n < |chain|
    ensures |path| == n && IsPath(edges, path, chain[n]) && Priced(path, clock)
    ensures forall k | 0 <= k < n :: path[k].producer == chain[k] && path[k].consumer == chain[k + 1]
    ensures Weight(path, clock) == s.start[chain[n]]
  {
    assert chain[n] in nodes;
    if n == 0 {
      assert EntryOk(edges, clock, s.start, s.finish, s.bestPred, chain[0]);
      path := [];
    } else {
      var before := ChainEdges(edges, nodes, clock, s, chain, n - 1);
      assert s.bestPred[chain[n - 1 + 1]] == Some(chain[n - 1]);
      var e := GateOf(edges, nodes, clock, s, chain[n]);
      PathExtends(edges, before, e, clock);
      path := before + [e];
    }
  }

  /** The critical path is a chain of dependencies that starts at time zero, runs without a
      gap, and takes as long as the longest serial chain in the whole graph. */
  lemma CriticalPathIsLongest(edges: seq<Edge>, nodes: set<Index>, clock: Clock, s: Solution, chain: seq<Index>)
    requires IsSchedule(edges, nodes, clock, s) && IsTopological(s.order, edges, nodes)
    requires IsGatedChain(chain, s) && forall u <- nodes :: s.finish[u] <= s.finish[chain[|chain| - 1]]
    ensures s.start[chain[0]] == 0.0
    ensures exists path: seq<Edge> ::
              |path| == |chain| - 1 && IsPath(edges, path, chain[|chain| - 1]) && Priced(path, clock)
              && (forall k | 0 <= k < |path| :: path[k].producer == chain[k] && path[k].consumer == chain[k + 1])
              && Weight(path, clock) + clock.full[chain[|chain| - 1]] == s.finish[chain[|chain| - 1]]
    ensures forall u, path: seq<Edge> | u in nodes && IsPath(edges, path, u) ::
              Priced(path, clock) && Weight(path, clock) + clock.full[u] <= s.finish[chain[|chain| - 1]]
  {
    var n := |chain| - 1;
    assert chain[0] in nodes && EntryOk(edges, clock, s.start, s.finish, s.bestPred, chain[0]);
    assert chain[n] in nodes && EntryOk(edges, clock, s.start, s.finish, s.bestPred, chain[n]);
    var along := ChainEdges(edges, nodes, clock, s, chain, n);
    forall u, path: seq<Edge> | u in nodes && IsPath(edges, path, u)
      ensures Priced(path, clock) && Weight(path, clock) + clock.full[u] <= s.finish[chain[n]]
    {
      PathBound(edges, nodes, clock, s, path, u);
      assert EntryOk(edges, clock, s.start, s.finish, s.bestPred, u);
    }
  }
}

/** The three-colour depth-first search for cycles among the roadmap's `blocked_by` links. */
module CycleDetection {
  import opened Digraph

  datatype Colour = White | Grey | Black

  type Id = string

  /** The blockers a task declares, by task id. */
  type Blockers = map<Id, seq<Id>>

  /** The links that matter: to another task that exists. */
  ghost function Links(blockers: Blockers): set<(Id, Id)> {
    set a, b | a in blockers && b in blockers[a] && b in blockers && b != a :: (a, b)
  }

  /** A closed walk that visits no task twice on its way. */
  ghost predicate IsSimpleCycle(links: set<(Id, Id)>, chain: seq<Id>) {
    IsClosedWalk(links, chain) && Distinct(chain[..|chain| - 1])
  }

  function Members(s: seq<Id>): set<Id> { set x | x in s }

  /** Every reported chain is a cycle, and no two have the same tasks. */
  ghost predicate AllReported(links: set<(Id, Id)>, chains: seq<seq<Id>>, reported: set<set<Id>>) {
    && (forall k | 0 <= k < |chains| :: IsSimpleCycle(links, chains[k]) && Members(chains[k]) in reported)
    && (forall key <- reported :: exists k :: 0 <= k < |chains| && Members(chains[k]) == key)
    && forall j, k | 0 <= j < k < |chains| :: Members(chains[j]) != Members(chains[k])
  }

  lemma ReportedMore(links: set<(Id, Id)>, chains: seq<seq<Id>>, reported: set<set<Id>>, chain: seq<Id>)
    requires AllReported(links, chains, reported) && IsSimpleCycle(links, chain) && Members(chain) !in reported
    ensures AllReported(links, chains + [chain], reported + {Members(chain)})
  {
    var more := chains + [chain];
    forall seen <- reported + {Members(chain)} ensures exists k :: 0 <= k < |more| && Members(more[k]) == seen {
      if seen == Members(chain) {
        assert Members(more[|chains|]) == seen;
      } else {
        var k :| 0 <= k < |chains| && Members(chains[k]) == seen;
        assert Members(more[k]) == seen;
      }
    }
  }

  /** The blockers of `finished[k]` are before it. */
  ghost predicate BlockersFirst(links: set<(Id, Id)>, finished: seq<Id>, k: nat)
    requires k < |finished|
  {
    forall b | (finished[k], b) in links :: b in finished[..k]
  }

  lemma BlockersStayFirst(links: set<(Id, Id)>, finished: seq<Id>, taskId: Id)
    requires forall k: nat | k < |finished| :: BlockersFirst(links, finished, k)
    requires forall b | (taskId, b) in links :: b in finished
    ensures forall k: nat | k < |finished + [taskId]| :: BlockersFirst(links, finished + [taskId], k)
  {
    var more := finished + [taskId];
    forall k: nat | k < |more| ensures BlockersFirst(links, more, k) {
      assert more[..k] == finished[..k];
      assert k < |finished| ==> BlockersFirst(links, finished, k);
      assert finished[..|finished|] == finished;
    }
  }

  lemma WalkWithoutLast(links: set<(Id, Id)>, walk: seq<Id>)
    requires |walk| > 1 && IsWalk(links, walk)
    ensures IsWalk(links, walk[..|walk| - 1])
  {
    var front := walk[..|walk| - 1];
    forall i: nat | i < |front| - 1 ensures Linked(links, front, i) {
      assert Linked(links, walk, i);
    }
  }

  ghost function Coloured(colour: map<Id, Colour>, c: Colour): set<Id> {
    set id | id in colour && colour[id] == c
  }

  lemma Recoloured(colour: map<Id, Colour>, id: Id, c: Colour)
    requires id in colour && colour[id] != c
    ensures Coloured(colour[id := c], c) == Coloured(colour, c) + {id}
    ensures Coloured(colour[id := c], colour[id]) == Coloured(colour, colour[id]) - {id}
    ensures forall other: Colour | other != c && other != colour[id] ::
              Coloured(colour[id := c], other) == Coloured(colour, other)
  {
  }

  /** `s` names the tasks of colour `c`, each once. */
  ghost predicate Lists(colour: map<Id, Colour>, c: Colour, s: seq<Id>) {
    && Distinct(s)
    && (forall id <- s :: id in colour && colour[id] == c)
    && (forall id <- colour.Keys | colour[id] == c :: id in s)
  }

  lemma ListsMore(colour: map<Id, Colour>, id: Id, c: Colour, s: seq<Id>)
    requires Lists(colour, c, s) && id in colour && colour[id] != c
    ensures Lists(colour[id := c], c, s + [id])
  {
  }

  lemma ListsLess(colour: map<Id, Colour>, id: Id, c: Colour, s: seq<Id>)
    requires s != [] && s[|s| - 1] == id && id in colour && colour[id] != c && Lists(colour, colour[id], s)
    ensures Lists(colour[id := c], colour[id], s[..|s| - 1])
  {
    forall other | other in colour && other != id && colour[other] == colour[id] ensures other in s[..|s| - 1] {
      var k :| 0 <= k < |s| && s[k] == other;
      assert s[..|s| - 1][k] == other;
    }
  }

  class Detector {
    const blockers: Blockers
    var colour: map<Id, Colour>
    var stack: seq<Id>
    var reported: set<set<Id>>
    var chains: seq<seq<Id>>
    ghost var finished: seq<Id>

    ghost function OfColour(c: Colour): set<Id>
      reads this`colour
    {
      Coloured(colour, c)
    }

    /** The grey tasks are the walk being explored. */
    ghost predicate PathOk()
      reads this`colour, this`stack
    {
      && colour.Keys == blockers.Keys
      && Lists(colour, Grey, stack)
      && (stack != [] ==> IsWalk(Links(blockers), stack))
    }

    /** Unless a cycle was found, the black tasks are in topological order. */
    ghost predicate FinishedOk()
      reads this`finished, this`colour, this`chains
    {
      && Lists(colour, Black, finished)
      && (chains == [] ==> forall k: nat | k < |finished| :: BlockersFirst(Links(blockers), finished, k))
    }

    ghost predicate Valid()
      reads this
    {
      PathOk() && AllReported(Links(blockers), chains, reported) && FinishedOk()
    }

    constructor (blockers: Blockers)
      ensures Valid() && this.blockers == blockers && stack == [] && chains == []
      ensures OfColour(White) == blockers.Keys
    {
      this.blockers := blockers;
      colour := map id | id in blockers :: White;
      stack := [];
      reported := {};
      chains := [];
      finished := [];
    }

    /** `blocker` is on the current path: the path from it on is a cycle. */
    method Report(taskId: Id, blocker: Id)
      requires Valid() && stack != [] && stack[|stack| - 1] == taskId
      requires (taskId, blocker) in Links(blockers) && blocker in colour && colour[blocker] == Grey
      modifies this`reported, this`chains
      ensures Valid() && chains != [] && old(chains) <= chains
    {
      var at := IndexOf(stack, blocker);
      var chain := stack[at..] + [blocker];
      CycleOnPath(Links(blockers), stack, at, blocker);
      var key := set id | id in chain;
      assert key == Members(chain);
      if key !in reported {
        ReportedMore(Links(blockers), chains, reported, chain);
        reported := reported + {key};
        chains := chains + [chain];
      }
    }

    method Visit(taskId: Id)
      requires Valid() && taskId in colour && colour[taskId] == White
      requires stack != [] ==> (stack[|stack| - 1], taskId) in Links(blockers)
      modifies this
      ensures Valid() && stack == old(stack) && taskId in colour && colour[taskId] == Black
      ensures old(OfColour(Black)) <= OfColour(Black) && OfColour(White) < old(OfColour(White))
      ensures old(chains) <= chains
      decreases OfColour(White), 1
    {
      Enter(taskId);
      Explore(taskId);
      assert forall b | b in OfColour(Black) :: b in finished;
      Leave(taskId);
    }

    /** Follows the links of the task at the end of the current path one after another. */
    method Explore(taskId: Id)
      requires Valid() && stack != [] && stack[|stack| - 1] == taskId && taskId in blockers
      modifies this
      ensures Valid() && stack == old(stack)
      ensures old(OfColour(Black)) <= OfColour(Black) && OfColour(White) <= old(OfColour(White))
      ensures old(chains) <= chains
      ensures chains == [] ==> forall b | (taskId, b) in Links(blockers) :: b in OfColour(Black)
      decreases OfColour(White), 3
    {
      var todo := blockers[taskId];
      var k := 0;
      while k < |todo|
        invariant 0 <= k <= |todo|
        invariant Valid() && stack == old(stack)
        invariant old(OfColour(Black)) <= OfColour(Black) && OfColour(White) <= old(OfColour(White))
        invariant old(chains) <= chains
        invariant chains == [] ==> forall j | 0 <= j < k && (taskId, todo[j]) in Links(blockers) ::
                    todo[j] in OfColour(Black)
      {
        Look(taskId, todo[k]);
        k := k + 1;
      }
    }

    /** One link of the task at the end of the current path. */
    method Look(taskId: Id, blocker: Id)
      requires Valid() && stack != [] && stack[|stack| - 1] == taskId
      requires taskId in blockers && blocker in blockers[taskId]
      modifies this
      ensures Valid() && stack == old(stack)
      ensures old(OfColour(Black)) <= OfColour(Black) && OfColour(White) <= old(OfColour(White))
      ensures old(chains) <= chains
      ensures chains == [] && (taskId, blocker) in Links(blockers) ==> blocker in OfColour(Black)
      decreases OfColour(White), 2
    {
      if blocker in blockers && blocker != taskId {
        if colour[blocker] == Grey {
          Report(taskId, blocker);
        } else if colour[blocker] == White {
          Visit(blocker);
        }
      }
    }

    method Enter(taskId: Id)
      requires Valid() && taskId in colour && colour[taskId] == White
      requires stack != [] ==> (stack[|stack| - 1], taskId) in Links(blockers)
      modifies this`colour, this`stack
      ensures Valid() && stack == old(stack) + [taskId]
      ensures OfColour(White) == old(OfColour(White)) - {taskId} && OfColour(Black) == old(OfColour(Black))
      ensures OfColour(White) < old(OfColour(White))
    {
      Recoloured(colour, taskId, Grey);
      ListsMore(colour, taskId, Grey, stack);
      colour := colour[taskId := Grey];
      stack := stack + [taskId];
      forall i: nat | i < |stack| - 1 ensures Linked(Links(blockers), stack, i) {
        if i < |stack| - 2 { assert Linked(Links(blockers), old(stack), i); }
      }
    }

    method Leave(taskId: Id)
      requires Valid() && stack != [] && stack[|stack| - 1] == taskId
      requires chains == [] ==> forall b | (taskId, b) in Links(blockers) :: b in finished
      modifies this`colour, this`stack, this`finished
      ensures Valid() && stack == old(stack)[..|old(stack)| - 1] && taskId in colour && colour[taskId] == Black
      ensures OfColour(White) == old(OfColour(White)) && OfColour(Black) == old(OfColour(Black)) + {taskId}
    {
      var n := |stack| - 1;
      assert taskId in stack;
      ListsLess(colour, taskId, Black, stack);
      ListsMore(colour, taskId, Black, finished);
      if chains == [] { BlockersStayFirst(Links(blockers), finished, taskId); }
      if n > 0 { WalkWithoutLast(Links(blockers), stack); }
      stack := stack[..n];
      Recoloured(colour, taskId, Black);
      colour := colour[taskId := Black];
      finished := finished + [taskId];
    }

    /** Visits every task.  A cycle is reported exactly if there is one. */
    method DetectCycles(order: seq<Id>)
      requires Valid() && stack == [] && chains == [] && OfColour(White) == blockers.Keys
      requires forall id :: id in order <==> id in blockers
      modifies this
      ensures Valid()
      ensures chains != [] <==> Cyclic(Links(blockers))
    {
      var k := 0;
      while k < |order|
        invariant 0 <= k <= |order|
        invariant Valid() && stack == []
        invariant forall j | 0 <= j < k :: order[j] in OfColour(Black)
      {
        if colour[order[k]] == White {
          Visit(order[k]);
        }
        k := k + 1;
      }
      if chains == [] {
        FinishedIsAcyclic();
      } else {
        assert IsSimpleCycle(Links(blockers), chains[0]);
      }
    }

    lemma FinishedIsAcyclic()
      requires Valid() && chains == [] && forall id <- blockers.Keys :: id in OfColour(Black)
      ensures !Cyclic(Links(blockers))
    {
      var order := Reverse(finished);
      var n := |finished|;
      forall link <- Links(blockers)
        ensures exists i, j :: 0 <= i < j < |order| && order[i] == link.0 && order[j] == link.1
      {
        assert link.0 in OfColour(Black);
        var k: nat :| k < n && finished[k] == link.0;
        assert BlockersFirst(Links(blockers), finished, k);
        var j: nat :| j < k && finished[..k][j] == link.1;
        assert order[n - 1 - k] == link.0 && order[n - 1 - j] == link.1;
      }
      OrderedIsAcyclic(Links(blockers), order);
    }
  }

  method IndexOf(s: seq<Id>, x: Id) returns (at: nat)
    requires x in s
    ensures at < |s| && s[at] == x
  {
    at := 0;
    while at < |s| && s[at] != x
      invariant at <= |s| && forall j | 0 <= j < at :: s[j] != x
    {
      at := at + 1;
    }
  }

  lemma CycleOnPath(links: set<(Id, Id)>, stack: seq<Id>, at: nat, blocker: Id)
    requires Distinct(stack) && IsWalk(links, stack) && at < |stack| && stack[at] == blocker
    requires (stack[|stack| - 1], blocker) in links
    ensures IsSimpleCycle(links, stack[at..] + [blocker])
  {
    var chain := stack[at..] + [blocker];
    forall i: nat | i < |chain| - 1 ensures Linked(links, chain, i) {
      if i < |chain| - 2 { assert Linked(links, stack, at + i); }
    }
    assert chain[..|chain| - 1] == stack[at..];
  }
}

/** The index of the disk cache against its files, while several tasks write, record, choose victims and remove. */
module DiskBooks {
  // A task puts a file in place, records it under the lock, chooses victims under the lock, and
  // removes their files one by one; anything may happen in between.

  import opened DiskIndex

  /** The sizes of the files in place; what each task has put in place and not recorded yet; the
      victims whose files are still to be removed; and the files that could not be. */
  datatype Books = Books(
    index: Index, sizes: map<Uuid, nat>, owed: map<nat, (Uuid, nat)>, doomed: multiset<Uuid>, stuck: set<Uuid>)

  datatype Step =
    | Place(w: nat, id: Uuid, bytes: nat)
    | Settle(w: nat, time: nat)
    | Choose(order: seq<Uuid>, n: nat)
    | Remove(id: Uuid, ok: bool)

  ghost predicate Possible(limits: Limits, b: Books, step: Step) {
    match step
    case Place(w, _, _) => w !in b.owed
    case Settle(w, _) => w in b.owed
    case Choose(order, n) =>
      IsEvictionOrder(order, b.index.entries) && n <= |order| && FewestVictims(b.index, limits, order, n)
    case Remove(id, _) => id in b.doomed
  }

  ghost function Done(limits: Limits, b: Books, step: Step): Books
    requires Possible(limits, b, step)
  {
    match step
    case Place(w, id, bytes) =>
      b.(sizes := b.sizes[id := bytes], owed := b.owed[w := (id, bytes)], stuck := b.stuck - {id})
    case Settle(w, time) =>
      var (id, bytes) := b.owed[w];
      b.(index := Recorded(b.index, id, Entry(bytes, time)), owed := b.owed - {w})
    case Choose(order, n) =>
      b.(index := Evicted(b.index, order, n), doomed := b.doomed + multiset(order[..n]))
    case Remove(id, ok) =>
      b.(doomed := b.doomed - multiset{id},
         sizes := if ok then b.sizes - {id} else b.sizes,
         stuck := if !ok && id in b.sizes then b.stuck + {id} else b.stuck)
  }

  /** A write of the id is in place and not recorded. */
  ghost predicate Owed(b: Books, id: Uuid) { exists w :: w in b.owed && b.owed[w].0 == id }

  /** Nobody is about to record the id or to remove its file. */
  ghost predicate Quiet(b: Books, id: Uuid) { !Owed(b, id) && id !in b.doomed }

  /** No file is put in place over one that is still to be recorded or removed, and no victim is
      chosen that is being written. */
  ghost predicate KeepsApart(b: Books, step: Step) {
    (step.Place? ==> Quiet(b, step.id))
    && (step.Choose? ==> step.n <= |step.order| && forall k | 0 <= k < step.n :: !Owed(b, step.order[k]))
  }

  /** Every recorded asset that nobody is writing has a file of the recorded size. */
  ghost predicate Backed(b: Books) {
    forall id <- b.index.entries :: !Owed(b, id) ==> id in b.sizes && b.sizes[id] == b.index.entries[id].bytes
  }

  /** Each task that owes a record owes it for a file of its own. */
  ghost predicate OwedOnce(b: Books) {
    && (forall v <- b.owed, w <- b.owed :: v != w ==> b.owed[v].0 != b.owed[w].0)
    && forall w <- b.owed :: b.owed[w].0 in b.sizes && b.sizes[b.owed[w].0] == b.owed[w].1
  }

  /** A victim is out of the index and not being written. */
  ghost predicate DoomedOnce(b: Books) {
    forall id <- b.doomed :: b.doomed[id] == 1 && id !in b.index.entries && !Owed(b, id) && id !in b.stuck
  }

  /** A file that is not recorded is on its way in or out, or is stuck. */
  ghost predicate FilesKnown(b: Books) {
    && (forall id <- b.sizes :: id in b.index.entries || Owed(b, id) || id in b.doomed || id in b.stuck)
    && forall id <- b.stuck :: id in b.sizes && id !in b.index.entries && !Owed(b, id)
  }

  ghost predicate Balanced(b: Books) { Backed(b) && OwedOnce(b) && DoomedOnce(b) && FilesKnown(b) }

  lemma PlaceBalances(limits: Limits, b: Books, w: nat, id: Uuid, bytes: nat)
    requires Balanced(b) && Possible(limits, b, Place(w, id, bytes)) && Quiet(b, id)
    ensures Balanced(Done(limits, b, Place(w, id, bytes)))
  {
    var b' := Done(limits, b, Place(w, id, bytes));
    forall other ensures Owed(b', other) <==> Owed(b, other) || other == id {
      if Owed(b, other) {
        var v :| v in b.owed && b.owed[v].0 == other;
        assert b'.owed[v].0 == other;
      }
      assert b'.owed[w].0 == id;
    }
  }

  lemma SettleBalances(limits: Limits, b: Books, w: nat, time: nat)
    requires Balanced(b) && Possible(limits, b, Settle(w, time))
    ensures Balanced(Done(limits, b, Settle(w, time)))
  {
    var b', id := Done(limits, b, Settle(w, time)), b.owed[w].0;
    forall other ensures Owed(b', other) <==> Owed(b, other) && other != id {
      if Owed(b, other) && other != id {
        var v :| v in b.owed && b.owed[v].0 == other;
        assert v in b'.owed;
      }
    }
    assert Owed(b, id);
  }

  lemma ChosenOnce(limits: Limits, b: Books, order: seq<Uuid>, n: nat)
    requires Possible(limits, b, Choose(order, n))
    ensures forall id <- multiset(order[..n]) :: multiset(order[..n])[id] == 1 && id in b.index.entries
  {
    assert forall i, j | 0 <= i < j < |order| :: Older(b.index.entries, order[i], order[j]);
    EachOnce(order[..n]);
    assert forall k | 0 <= k < n :: order[..n][k] in order;
  }

  lemma {:induction false} EachOnce(s: seq<Uuid>)
    requires forall i, j | 0 <= i < j < |s| :: s[i] != s[j]
    ensures forall id <- s :: multiset(s)[id] == 1
  {
    if s != [] {
      var front, last := s[..|s| - 1], s[|s| - 1];
      EachOnce(front);
      assert s == front + [last];
    }
  }

  lemma ChooseBalances(limits: Limits, b: Books, order: seq<Uuid>, n: nat)
    requires Balanced(b) && Possible(limits, b, Choose(order, n)) && KeepsApart(b, Choose(order, n))
    ensures Balanced(Done(limits, b, Choose(order, n)))
  {
    var b' := Done(limits, b, Choose(order, n));
    ChosenOnce(limits, b, order, n);
    EvictedEntries(b.index, order, n);
    assert forall id :: Owed(b', id) <==> Owed(b, id);
    forall id <- order[..n] ensures !Owed(b, id) && id in b.index.entries {}
  }

  lemma RemoveBalances(limits: Limits, b: Books, id: Uuid, ok: bool)
    requires Balanced(b) && Possible(limits, b, Remove(id, ok))
    ensures Balanced(Done(limits, b, Remove(id, ok)))
  {
    var b' := Done(limits, b, Remove(id, ok));
    assert forall other :: Owed(b', other) <==> Owed(b, other);
    assert forall w <- b.owed :: Owed(b, b.owed[w].0);
  }

  lemma StaysBalanced(limits: Limits, b: Books, step: Step)
    requires Balanced(b) && Possible(limits, b, step) && KeepsApart(b, step)
    ensures Balanced(Done(limits, b, step))
  {
    match step
    case Place(w, id, bytes) => PlaceBalances(limits, b, w, id, bytes);
    case Settle(w, time) => SettleBalances(limits, b, w, time);
    case Choose(order, n) => ChooseBalances(limits, b, order, n);
    case Remove(id, ok) => RemoveBalances(limits, b, id, ok);
  }

  ghost predicate CanRun(limits: Limits, b: Books, steps: seq<Step>)
    decreases |steps|
  {
    steps == [] || (Possible(limits, b, steps[0]) && CanRun(limits, Done(limits, b, steps[0]), steps[1..]))
  }

  ghost function After(limits: Limits, b: Books, steps: seq<Step>): Books
    requires CanRun(limits, b, steps)
    decreases |steps|
  {
    if steps == [] then b else After(limits, Done(limits, b, steps[0]), steps[1..])
  }

  ghost predicate RunsApart(limits: Limits, b: Books, steps: seq<Step>)
    requires CanRun(limits, b, steps)
    decreases |steps|
  {
    steps == [] || (KeepsApart(b, steps[0]) && RunsApart(limits, Done(limits, b, steps[0]), steps[1..]))
  }

  /** In every interleaving in which the work on one id does not overlap, every recorded asset that
      nobody is writing has a file of the recorded size.  Once all work is done the files are those
      of the index, but for those that could not be removed. */
  lemma {:induction false} BooksBalance(limits: Limits, b: Books, steps: seq<Step>)
    requires Balanced(b) && CanRun(limits, b, steps) && RunsApart(limits, b, steps)
    ensures Balanced(After(limits, b, steps)) && Backed(After(limits, b, steps))
    ensures var end := After(limits, b, steps);
            end.owed == map[] && end.doomed == multiset{} ==>
              && end.sizes.Keys == end.index.entries.Keys + end.stuck && end.index.entries.Keys !! end.stuck
              && forall id <- end.index.entries :: end.sizes[id] == end.index.entries[id].bytes
    decreases |steps|
  {
    if steps != [] {
      StaysBalanced(limits, b, steps[0]);
      BooksBalance(limits, Done(limits, b, steps[0]), steps[1..]);
    }
  }

  // ---------------------------------------------------------------------------------
  // Purges that nobody restrains.

  // A purge runs inside another task's write, so a writer can choose what it puts in place but not
  // what is purged meanwhile.

  /** Nobody is at work on the id, and the index does not hold it. */
  ghost predicate Clear(b: Books, id: Uuid) { Quiet(b, id) && id !in b.index.entries }

  /** Files are put in place for clear ids only; everything else may happen at any time. */
  ghost predicate PlacesClear(b: Books, step: Step) { step.Place? ==> Clear(b, step.id) }

  ghost predicate RunsClear(limits: Limits, b: Books, steps: seq<Step>)
    requires CanRun(limits, b, steps)
    decreases |steps|
  {
    steps == [] || (PlacesClear(b, steps[0]) && RunsClear(limits, Done(limits, b, steps[0]), steps[1..]))
  }

  /** What is owed is not in the index, so that no purge can choose it. */
  ghost predicate Sound(b: Books) { Balanced(b) && forall w <- b.owed :: b.owed[w].0 !in b.index.entries }

  lemma ChosenAreNotOwed(limits: Limits, b: Books, order: seq<Uuid>, n: nat)
    requires Sound(b) && Possible(limits, b, Choose(order, n))
    ensures forall k | 0 <= k < n :: !Owed(b, order[k])
  {
    assert forall k | 0 <= k < n :: order[k] in order;
  }

  lemma ClearKeepsApart(limits: Limits, b: Books, step: Step)
    requires Sound(b) && Possible(limits, b, step) && PlacesClear(b, step)
    ensures KeepsApart(b, step)
  {
    if step.Choose? { ChosenAreNotOwed(limits, b, step.order, step.n); }
  }

  lemma StaysSound(limits: Limits, b: Books, step: Step)
    requires Sound(b) && Possible(limits, b, step) && PlacesClear(b, step)
    ensures Sound(Done(limits, b, step))
  {
    ClearKeepsApart(limits, b, step);
    StaysBalanced(limits, b, step);
    if step.Choose? { EvictedEntries(b.index, step.order, step.n); }
  }

  /** Where files are put in place for clear ids only, no purge ever chooses an id that is being
      written, and every recorded asset has its file throughout. */
  lemma {:induction false} ClearRunsBalance(limits: Limits, b: Books, steps: seq<Step>)
    requires Sound(b) && CanRun(limits, b, steps) && RunsClear(limits, b, steps)
    ensures RunsApart(limits, b, steps) && Sound(After(limits, b, steps)) && Backed(After(limits, b, steps))
    decreases |steps|
  {
    if steps != [] {
      ClearKeepsApart(limits, b, steps[0]);
      StaysSound(limits, b, steps[0]);
      ClearRunsBalance(limits, Done(limits, b, steps[0]), steps[1..]);
    }
  }

  /** `steps` can be taken and lead to `end`. */
  ghost predicate Leads(limits: Limits, b: Books, steps: seq<Step>, end: Books) {
    CanRun(limits, b, steps) && RunsClear(limits, b, steps) && After(limits, b, steps) == end
  }

  lemma LeadsFrom(limits: Limits, b: Books, step: Step, steps: seq<Step>, end: Books)
    requires Possible(limits, b, step) && PlacesClear(b, step) && Leads(limits, Done(limits, b, step), steps, end)
    ensures Leads(limits, b, [step] + steps, end)
  {
    assert ([step] + steps)[1..] == steps;
  }

  lemma LeadsNowhere(limits: Limits, b: Books)
    ensures Leads(limits, b, [], b)
  {
  }

  /** A write of `bytes` put in place now, and `steps` after it, leave an entry without its file. */
  ghost predicate Spoils(limits: Limits, b: Books, w: nat, id: Uuid, bytes: nat, steps: seq<Step>)
    requires w !in b.owed
  {
    var placed := Done(limits, b, Place(w, id, bytes));
    CanRun(limits, placed, steps) && RunsClear(limits, placed, steps) && !Backed(After(limits, placed, steps))
  }

  /** Recording, and then removing, an id that nobody else owes leaves an entry without a file. */
  lemma RemovedAfterRecord(limits: Limits, b: Books, w: nat, id: Uuid, time: nat)
    returns (steps: seq<Step>, end: Books)
    requires w in b.owed && b.owed[w].0 == id && id in b.doomed
    requires forall v <- b.owed :: v != w ==> b.owed[v].0 != id
    ensures Leads(limits, b, steps, end) && RunsApart(limits, b, steps) && !Backed(end)
    ensures steps == [Settle(w, time), Remove(id, true)]
  {
    var settled := Done(limits, b, Settle(w, time));
    end := Done(limits, settled, Remove(id, true));
    LeadsNowhere(limits, end);
    LeadsFrom(limits, settled, Remove(id, true), [], end);
    LeadsFrom(limits, b, Settle(w, time), [Remove(id, true)] + [], end);
    steps := [Settle(w, time)] + ([Remove(id, true)] + []);
    assert steps[1..] == [Remove(id, true)] && steps[1..][1..] == [];
    assert RunsApart(limits, settled, steps[1..]);
    assert id in end.index.entries && id !in end.sizes && !Owed(end, id);
  }

  /** An old file still to be removed: its removal takes the new one. */
  lemma LateRemoval(limits: Limits, b: Books, w: nat, id: Uuid) returns (steps: seq<Step>)
    requires Sound(b) && w !in b.owed && id in b.doomed
    ensures Spoils(limits, b, w, id, 0, steps)
  {
    var placed := Done(limits, b, Place(w, id, 0));
    assert !Owed(b, id);
    forall v <- placed.owed ensures v != w ==> placed.owed[v].0 != id {
      if v != w { assert b.owed[v].0 != id; }
    }
    var end;
    steps, end := RemovedAfterRecord(limits, placed, w, id, 0);
  }

  /** An older write still to be recorded: its size is recorded over the newer one's. */
  lemma LateRecord(limits: Limits, b: Books, w: nat, id: Uuid, v: nat) returns (steps: seq<Step>)
    requires Sound(b) && w !in b.owed && v in b.owed && b.owed[v].0 == id
    ensures Spoils(limits, b, w, id, b.owed[v].1 + 1, steps)
  {
    var placed := Done(limits, b, Place(w, id, b.owed[v].1 + 1));
    var newer := Done(limits, placed, Settle(w, 0));
    var end := Done(limits, newer, Settle(v, 0));
    LeadsNowhere(limits, end);
    LeadsFrom(limits, newer, Settle(v, 0), [], end);
    LeadsFrom(limits, placed, Settle(w, 0), [Settle(v, 0)] + [], end);
    steps := [Settle(w, 0)] + ([Settle(v, 0)] + []);
    assert end.index.entries[id].bytes == b.owed[v].1 && end.sizes[id] == b.owed[v].1 + 1;
    assert end.owed == b.owed - {v};
    assert !Owed(end, id);
  }

  // An id that is in the index: writes of other ids drive purges until it is chosen.

  ghost function Larger(s: set<nat>): (n: nat)
    ensures forall x <- s :: x < n
  {
    if s == {} then 0
    else
      var x :| x in s;
      var n := Larger(s - {x});
      assert forall y <- s :: y == x || y in s - {x};
      if x < n then n else x + 1
  }

  lemma {:induction false} AnOrder(entries: map<Uuid, Entry>) returns (order: seq<Uuid>)
    ensures IsEvictionOrder(order, entries)
    decreases |entries|
  {
    order := [];
    if entries != map[] {
      var id :| id in entries;
      var rest := entries - {id};
      var others := AnOrder(rest);
      var k := PlaceFor(others, rest, id, entries[id], |others|);
      assert rest[id := entries[id]] == entries;
      InsertAges(others, rest, id, entries[id], k);
      order := others[..k] + [id] + others[k..];
    }
  }

  /** Where `id` belongs among the first `n` of `order`. */
  lemma {:induction false} PlaceFor(order: seq<Uuid>, known: map<Uuid, Entry>, id: Uuid, e: Entry, n: nat)
    returns (k: nat)
    requires IsEvictionOrder(order, known) && id !in known && n <= |order|
    requires forall i | 0 <= i < |order| :: order[i] in known
    ensures k <= n && (forall i | 0 <= i < k :: Older(known[id := e], order[i], id))
    ensures k < n ==> Older(known[id := e], id, order[k])
    decreases n
  {
    k := 0;
    if n > 0 {
      if Older(known[id := e], order[n - 1], id) {
        k := n;
        forall i | 0 <= i < n ensures Older(known[id := e], order[i], id) {
          if i < n - 1 { assert Older(known, order[i], order[n - 1]); }
        }
      } else {
        k := PlaceFor(order, known, id, e, n - 1);
      }
    }
  }

  /** How many of `order` are victims, the first `k` being so. */
  lemma {:induction false} AChoice(index: Index, limits: Limits, order: seq<Uuid>, k: nat) returns (n: nat)
    requires k <= |order| && OverCeiling(index, limits)
    requires forall j | 0 <= j < k :: OverTarget(Evicted(index, order, j), limits)
    ensures k <= n <= |order| && FewestVictims(index, limits, order, n)
    decreases |order| - k
  {
    if k < |order| && OverTarget(Evicted(index, order, k), limits) {
      forall j | 0 <= j < k + 1 ensures OverTarget(Evicted(index, order, j), limits) {
        if j == k { assert Evicted(index, order, j) == Evicted(index, order, k); }
      }
      n := AChoice(index, limits, order, k + 1);
    } else {
      n := k;
    }
  }

  ghost function OlderThan(entries: map<Uuid, Entry>, id: Uuid): set<Uuid>
    requires id in entries
  {
    set other | other in entries && Older(entries, other, id)
  }

  /** The state once a new empty file is in place and recorded, as old as the entry of `id` but behind it. */
  ghost function Grown(limits: Limits, b: Books, id: Uuid, v: nat, extra: Uuid): Books
    requires id in b.index.entries && v !in b.owed
  {
    Done(limits, Done(limits, b, Place(v, extra, 0)), Settle(v, b.index.entries[id].time))
  }

  lemma Grows(limits: Limits, b: Books, id: Uuid, v: nat, extra: Uuid)
    requires id in b.index.entries && v !in b.owed && extra !in b.index.entries && extra > id
    ensures var g, e := Grown(limits, b, id, v, extra), Entry(0, b.index.entries[id].time);
            && g.index.entries == b.index.entries[extra := e] && g.owed == b.owed && g.doomed == b.doomed
            && OlderThan(g.index.entries, id) == OlderThan(b.index.entries, id)
            && |g.index.entries| == |b.index.entries| + 1
  {
    var g := Grown(limits, b, id, v, extra);
    assert g.owed == b.owed;
    assert g.index.entries.Keys == b.index.entries.Keys + {extra};
    assert |g.index.entries| == |g.index.entries.Keys| && |b.index.entries| == |b.index.entries.Keys|;
  }

  /** A purge that chooses anybody chooses `id` or leaves fewer that are older. */
  lemma PurgeComesNearer(limits: Limits, b: Books, id: Uuid, order: seq<Uuid>, n: nat)
    requires id in b.index.entries && Possible(limits, b, Choose(order, n)) && n > 0
    ensures var after := Done(limits, b, Choose(order, n));
            && after.index.entries.Keys <= b.index.entries.Keys && after.owed == b.owed
            && if id in after.index.entries then |OlderThan(after.index.entries, id)| < |OlderThan(b.index.entries, id)|
               else id in after.doomed
  {
    var after := Done(limits, b, Choose(order, n));
    EvictedEntries(b.index, order, n);
    assert order[0] in order[..n] && order[0] in order;
    if id in after.index.entries {
      VictimsAreOldest(b.index, order, n, order[0], id);
      assert OlderThan(after.index.entries, id) <= OlderThan(b.index.entries, id) - {order[0]};
      Fewer(OlderThan(after.index.entries, id), OlderThan(b.index.entries, id), order[0]);
    } else {
      assert id in order[..n];
    }
  }

  lemma Fewer(a: set<Uuid>, b: set<Uuid>, x: Uuid)
    requires a <= b - {x} && x in b
    ensures |a| < |b|
  {
    assert b == a + (b - a) && |b| == |a| + |b - a| && x in b - a;
  }

  /** An id nobody has to do with, larger than `id`. */
  lemma AnExtra(b: Books, id: Uuid) returns (extra: Uuid)
    ensures Clear(b, extra) && extra > id
  {
    var busy := (set w | w in b.owed :: b.owed[w].0) + (set x | x in b.doomed) + b.index.entries.Keys + {id};
    extra := Larger(busy);
    assert id in busy && extra !in busy;
    forall w <- b.owed ensures b.owed[w].0 != extra {
      assert b.owed[w].0 in busy;
    }
  }

  lemma ANewTask(b: Books) returns (v: nat)
    ensures v !in b.owed
  {
    v := Larger(b.owed.Keys);
    assert v !in b.owed.Keys;
  }

  /** Over a ceiling some victims can be chosen. */
  lemma AVictim(limits: Limits, b: Books) returns (order: seq<Uuid>, n: nat)
    requires OverCeiling(b.index, limits) && b.index.entries != map[]
    ensures Possible(limits, b, Choose(order, n)) && n > 0
  {
    order := AnOrder(b.index.entries);
    n := AChoice(b.index, limits, order, 0);
    TargetFits(limits);
    var some :| some in b.index.entries;
    assert some in order;
    assert Evicted(b.index, order, 0) == b.index;
  }

  /** How many entries still fit under the ceiling. */
  function Room(limits: Limits, b: Books): nat {
    if |b.index.entries| <= limits.maxEntries then limits.maxEntries + 1 - |b.index.entries| else 0
  }

  /** Other tasks can write new ids, and purge, until the recorded `id` is chosen; what is owed stays owed. */
  lemma {:induction false} Purged(limits: Limits, b: Books, id: Uuid) returns (steps: seq<Step>, end: Books)
    requires id in b.index.entries
    ensures Leads(limits, b, steps, end) && end.owed == b.owed && id in end.doomed
    decreases |OlderThan(b.index.entries, id)|, Room(limits, b), 1
  {
    var v := ANewTask(b);
    var extra := AnExtra(b, id);
    var time := b.index.entries[id].time;
    var grown := Grown(limits, b, id, v, extra);
    Grows(limits, b, id, v, extra);
    var rest;
    rest, end := PurgedNow(limits, b, id, grown);
    var placed := Done(limits, b, Place(v, extra, 0));
    LeadsFrom(limits, placed, Settle(v, time), rest, end);
    LeadsFrom(limits, b, Place(v, extra, 0), [Settle(v, time)] + rest, end);
    steps := [Place(v, extra, 0)] + ([Settle(v, time)] + rest);
  }

  lemma {:induction false} PurgedNow(limits: Limits, b: Books, id: Uuid, grown: Books)
    returns (steps: seq<Step>, end: Books)
    requires id in b.index.entries && id in grown.index.entries
    requires OlderThan(grown.index.entries, id) == OlderThan(b.index.entries, id)
    requires |grown.index.entries| == |b.index.entries| + 1
    ensures Leads(limits, grown, steps, end) && end.owed == grown.owed && id in end.doomed
    decreases |OlderThan(b.index.entries, id)|, Room(limits, b), 0
  {
    if OverCeiling(grown.index, limits) {
      var order, n := AVictim(limits, grown);
      var purged := Done(limits, grown, Choose(order, n));
      PurgeComesNearer(limits, grown, id, order, n);
      var rest := [];
      end := purged;
      LeadsNowhere(limits, purged);
      if id in purged.index.entries {
        rest, end := Purged(limits, purged, id);
      }
      LeadsFrom(limits, grown, Choose(order, n), rest, end);
      steps := [Choose(order, n)] + rest;
    } else {
      steps, end := Purged(limits, grown, id);
    }
  }

  lemma {:induction false} LeadsThrough(limits: Limits, b: Books, first: seq<Step>, mid: Books, second: seq<Step>,
                                        end: Books)
    requires Leads(limits, b, first, mid) && Leads(limits, mid, second, end)
    ensures Leads(limits, b, first + second, end)
    decreases |first|
  {
    if first == [] {
      assert first + second == second;
    } else {
      LeadsThrough(limits, Done(limits, b, first[0]), first[1..], mid, second, end);
      LeadsFrom(limits, b, first[0], first[1..] + second, end);
      assert [first[0]] + (first[1..] + second) == first + second;
    }
  }

  /** An entry of the id in the index: a purge chooses it before the new file is recorded. */
  lemma LatePurge(limits: Limits, b: Books, w: nat, id: Uuid) returns (steps: seq<Step>)
    requires w !in b.owed && Quiet(b, id) && id in b.index.entries
    ensures Spoils(limits, b, w, id, 0, steps)
  {
    var placed := Done(limits, b, Place(w, id, 0));
    var first, purged := Purged(limits, placed, id);
    forall v <- purged.owed ensures v != w ==> purged.owed[v].0 != id {
      if v != w { assert b.owed[v].0 != id; }
    }
    var second, end := RemovedAfterRecord(limits, purged, w, id, 0);
    steps := first + second;
    SpoilsBy(limits, b, w, id, 0, placed, first, purged, second, end, steps);
  }

  const TIGHT := Limits(1, 100)

  /** One asset is cached, of one byte. */
  const CACHED := Books(Index(map[1 := Entry(1, 0)], 1), map[1 := 1], map[], multiset{}, {})

  /** It and another are written at once, and the other is recorded first. */
  lemma OtherRecorded() returns (placed: Books, steps: seq<Step>, recorded: Books)
    ensures placed == Done(TIGHT, CACHED, Place(0, 1, 2))
    ensures steps == [Place(1, 2, 1), Settle(1, 1)] && Leads(TIGHT, placed, steps, recorded)
    ensures recorded.owed == map[0 := (1, 2)]
    ensures recorded.index == Index(map[1 := Entry(1, 0), 2 := Entry(1, 1)], 2)
  {
    placed := Done(TIGHT, CACHED, Place(0, 1, 2));
    var both := Done(TIGHT, placed, Place(1, 2, 1));
    assert both.owed == map[0 := (1, 2), 1 := (2, 1)] && both.index == CACHED.index;
    recorded := Done(TIGHT, both, Settle(1, 1));
    LeadsNowhere(TIGHT, recorded);
    LeadsFrom(TIGHT, both, Settle(1, 1), [], recorded);
    assert placed.owed == map[0 := (1, 2)] && Clear(placed, 2);
    LeadsFrom(TIGHT, placed, Place(1, 2, 1), [Settle(1, 1)] + [], recorded);
    steps := [Place(1, 2, 1)] + ([Settle(1, 1)] + []);
  }

  /** The purge chooses the old entry before the new file is recorded. */
  lemma OldChosen(recorded: Books) returns (steps: seq<Step>, end: Books)
    requires recorded.owed == map[0 := (1, 2)]
    requires recorded.index == Index(map[1 := Entry(1, 0), 2 := Entry(1, 1)], 2)
    ensures steps == [Choose([1, 2], 1), Settle(0, 2), Remove(1, true)]
    ensures Leads(TIGHT, recorded, steps, end) && !Backed(end)
  {
    ChoosesFirst(recorded.index);
    var chosen := Done(TIGHT, recorded, Choose([1, 2], 1));
    assert [1, 2][..1] == [1];
    assert chosen.owed[0] == (1, 2) && 1 in chosen.doomed;
    var tail;
    tail, end := RemovedAfterRecord(TIGHT, chosen, 0, 1, 2);
    LeadsFrom(TIGHT, recorded, Choose([1, 2], 1), tail, end);
    steps := [Choose([1, 2], 1)] + tail;
  }

  lemma CachedIsSound()
    ensures Sound(CACHED) && Quiet(CACHED, 1)
  {
  }

  lemma SpoilsBy(limits: Limits, b: Books, w: nat, id: Uuid, bytes: nat, placed: Books, first: seq<Step>, mid: Books,
                 second: seq<Step>, end: Books, steps: seq<Step>)
    requires w !in b.owed && placed == Done(limits, b, Place(w, id, bytes)) && Leads(limits, placed, first, mid)
    requires Leads(limits, mid, second, end) && !Backed(end) && steps == first + second
    ensures Spoils(limits, b, w, id, bytes, steps)
  {
    LeadsThrough(limits, placed, first, mid, second, end);
  }

  lemma Overtakes(b: Books) returns (steps: seq<Step>)
    requires b == CACHED
    ensures steps == [Place(1, 2, 1), Settle(1, 1), Choose([1, 2], 1), Settle(0, 2), Remove(1, true)]
    ensures Spoils(TIGHT, b, 0, 1, 2, steps)
  {
    var placed, first, recorded := OtherRecorded();
    var second, end := OldChosen(recorded);
    steps := first + second;
    SpoilsBy(TIGHT, b, 0, 1, 2, placed, first, recorded, second, end, steps);
  }

  /** A cached asset is written anew while another is written and recorded: the purge chooses the old
      entry, the new file is recorded, and then removed.  Nobody was about to record or to remove
      either id when its file was put in place. */
  lemma PurgeOvertakesRecord() returns (steps: seq<Step>)
    ensures steps == [Place(1, 2, 1), Settle(1, 1), Choose([1, 2], 1), Settle(0, 2), Remove(1, true)]
    ensures Sound(CACHED) && Quiet(CACHED, 1) && Spoils(TIGHT, CACHED, 0, 1, 2, steps)
  {
    CachedIsSound();
    steps := Overtakes(CACHED);
  }

  lemma ChoosesFirst(index: Index)
    requires index == Index(map[1 := Entry(1, 0), 2 := Entry(1, 1)], 2)
    ensures IsEvictionOrder([1, 2], index.entries) && FewestVictims(index, TIGHT, [1, 2], 1)
  {
    assert |index.entries| == 2;
    var after := Evicted(index, [1, 2], 1);
    assert Evicted(index, [1, 2], 0) == index;
    assert after.entries == map[2 := Entry(1, 1)];
    assert |after.entries| == 1;
  }

  /** `steps` after the choice of the first `n` of `order` leave an entry without its file, no later
      file being put over work under way and no later victim being written. */
  ghost predicate ChoiceSpoils(limits: Limits, b: Books, order: seq<Uuid>, n: nat, steps: seq<Step>)
    requires Possible(limits, b, Choose(order, n))
  {
    var chosen := Done(limits, b, Choose(order, n));
    CanRun(limits, chosen, steps) && RunsApart(limits, chosen, steps) && !Backed(After(limits, chosen, steps))
  }

  /** Victims may be chosen without ever leaving an entry without its file exactly if none of them is being written. */
  lemma MayChooseExactlyWhenSpared(limits: Limits, b: Books, order: seq<Uuid>, n: nat)
    requires Balanced(b) && Possible(limits, b, Choose(order, n))
    ensures (forall steps: seq<Step> :: !ChoiceSpoils(limits, b, order, n, steps))
       <==> forall k | 0 <= k < n :: !Owed(b, order[k])
  {
    var chosen := Done(limits, b, Choose(order, n));
    if forall k | 0 <= k < n :: !Owed(b, order[k]) {
      ChooseBalances(limits, b, order, n);
      forall steps: seq<Step> ensures !ChoiceSpoils(limits, b, order, n, steps) {
        if CanRun(limits, chosen, steps) && RunsApart(limits, chosen, steps) {
          BooksBalance(limits, chosen, steps);
        }
      }
    } else {
      var k :| 0 <= k < n && Owed(b, order[k]);
      var w :| w in b.owed && b.owed[w].0 == order[k];
      assert order[..n][k] == order[k];
      var steps, end := RemovedAfterRecord(limits, chosen, w, order[k], 0);
      assert ChoiceSpoils(limits, b, order, n, steps);
    }
  }

  /** A file may be put in place without ever leaving an entry without its file, whatever its size and
      whatever other tasks write and purge, exactly if its id is not in the index and nobody is about
      to record it or to remove its file. */
  lemma MayPlaceExactlyWhenClear(limits: Limits, b: Books, w: nat, id: Uuid)
    requires Sound(b) && w !in b.owed
    ensures (forall bytes: nat, steps: seq<Step> :: !Spoils(limits, b, w, id, bytes, steps)) <==> Clear(b, id)
  {
    if Clear(b, id) {
      forall bytes: nat, steps: seq<Step> ensures !Spoils(limits, b, w, id, bytes, steps) {
        var placed := Done(limits, b, Place(w, id, bytes));
        StaysSound(limits, b, Place(w, id, bytes));
        if CanRun(limits, placed, steps) && RunsClear(limits, placed, steps) {
          ClearRunsBalance(limits, placed, steps);
        }
      }
    } else if id in b.doomed {
      var steps := LateRemoval(limits, b, w, id);
    } else if Owed(b, id) {
      var v :| v in b.owed && b.owed[v].0 == id;
      var steps := LateRecord(limits, b, w, id, v);
    } else {
      var steps := LatePurge(limits, b, w, id);
    }
  }
}

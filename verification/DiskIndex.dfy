/** The on-disk asset cache: its index of sizes and write times, and the purge of the least recently written. */
module DiskIndex {
  // Which file operations succeed is decided by the environment.

  import D = DiskFiles
  import opened Wrappers

  type Uuid = D.Uuid

  type Bytes = D.Bytes

  const U64_MAX: nat := 0xFFFF_FFFF_FFFF_FFFF

  function SatAdd(a: nat, b: nat): nat { if a + b > U64_MAX then U64_MAX else a + b }

  function SatSub(a: nat, b: nat): nat { if a < b then 0 else a - b }

  function SatMul(a: nat, b: nat): nat { if a * b > U64_MAX then U64_MAX else a * b }

  datatype Limits = Limits(maxEntries: nat, maxBytes: nat)

  /** One cached asset: its size and when it was last written. */
  datatype Entry = Entry(bytes: nat, time: nat)

  datatype Index = Index(entries: map<Uuid, Entry>, total: nat)

  /** What a purge brings the size down to: 80 % of the ceiling. */
  function Target(limits: Limits): nat { SatMul(limits.maxBytes, 80) / 100 }

  /** It is four fifths of the ceiling, rounded down, unless eighty times the ceiling is beyond 64 bits. */
  lemma TargetIsFourFifths(limits: Limits)
    ensures limits.maxBytes <= 230584300921369395 ==>
              5 * Target(limits) <= 4 * limits.maxBytes < 5 * (Target(limits) + 1)
    ensures limits.maxBytes > 230584300921369395 ==> Target(limits) == 184467440737095516
  {
  }

  // ---------------------------------------------------------------------------------
  // The sum of the sizes.

  ghost function Pick(entries: map<Uuid, Entry>): (id: Uuid)
    requires |entries| > 0
    ensures id in entries
  {
    var id :| id in entries;
    id
  }

  ghost function Sum(entries: map<Uuid, Entry>): nat
    decreases |entries|
  {
    if |entries| == 0 then 0 else entries[Pick(entries)].bytes + Sum(entries - {Pick(entries)})
  }

  lemma {:induction false} SumWithout(entries: map<Uuid, Entry>, id: Uuid)
    requires id in entries
    ensures Sum(entries) == entries[id].bytes + Sum(entries - {id})
    decreases |entries|
  {
    var some := Pick(entries);
    if some != id {
      SumWithout(entries - {some}, id);
      SumWithout(entries - {id}, some);
      assert entries - {some} - {id} == entries - {id} - {some};
    }
  }

  lemma SumWith(entries: map<Uuid, Entry>, id: Uuid, e: Entry)
    ensures Sum(entries[id := e]) == e.bytes + Sum(entries - {id})
  {
    SumWithout(entries[id := e], id);
    assert entries[id := e] - {id} == entries - {id};
  }

  /** The running total is the sum of the sizes. */
  ghost predicate Exact(index: Index) { index.total == Sum(index.entries) }

  // ---------------------------------------------------------------------------------
  // Recording a write.

  function Recorded(index: Index, id: Uuid, e: Entry): Index {
    var total := if id in index.entries then SatSub(index.total, index.entries[id].bytes) else index.total;
    Index(index.entries[id := e], SatAdd(total, e.bytes))
  }

  /** Recording keeps the total exact, unless the sizes no longer fit in 64 bits. */
  lemma RecordedIsExact(index: Index, id: Uuid, e: Entry)
    requires Exact(index)
    ensures Exact(Recorded(index, id, e)) <==> Sum(index.entries[id := e]) <= U64_MAX
  {
    SumWith(index.entries, id, e);
    if id in index.entries {
      SumWithout(index.entries, id);
    } else {
      assert index.entries - {id} == index.entries;
    }
  }

  /** Beyond 64 bits the total sticks at its largest value: twice the largest size counts once. */
  lemma SaturatesTooFar()
    ensures var index := Index(map[1 := Entry(U64_MAX, 0)], U64_MAX);
            Exact(index) && !Exact(Recorded(index, 2, Entry(U64_MAX, 0)))
  {
    var one := map[1 := Entry(U64_MAX, 0)];
    SumWithout(one, 1);
    assert one - {1} == map[];
    RecordedIsExact(Index(one, U64_MAX), 2, Entry(U64_MAX, 0));
    SumWith(one, 2, Entry(U64_MAX, 0));
    assert one - {2} == one;
  }

  // ---------------------------------------------------------------------------------
  // The eviction order.

  predicate Older(entries: map<Uuid, Entry>, a: Uuid, b: Uuid)
    requires a in entries && b in entries
  {
    entries[a].time < entries[b].time || (entries[a].time == entries[b].time && a < b)
  }

  ghost predicate Lists(order: seq<Uuid>, entries: map<Uuid, Entry>) { forall id :: id in order <==> id in entries }

  ghost predicate Ageing(order: seq<Uuid>, entries: map<Uuid, Entry>)
    requires Lists(order, entries)
  {
    forall i, j | 0 <= i < j < |order| :: Older(entries, order[i], order[j])
  }

  /** All ids, oldest first; ids written at the same time in the order of the ids. */
  ghost predicate IsEvictionOrder(order: seq<Uuid>, entries: map<Uuid, Entry>) {
    Lists(order, entries) && Ageing(order, entries)
  }

  lemma InsertLists(order: seq<Uuid>, known: map<Uuid, Entry>, id: Uuid, e: Entry, k: nat)
    requires k <= |order| && Lists(order, known)
    ensures Lists(order[..k] + [id] + order[k..], known[id := e])
  {
    assert order == order[..k] + order[k..];
  }

  lemma InsertAges(order: seq<Uuid>, known: map<Uuid, Entry>, id: Uuid, e: Entry, k: nat)
    requires k <= |order| && id !in known && Lists(order, known) && Ageing(order, known)
    requires forall i | 0 <= i < k :: Older(known[id := e], order[i], id)
    requires k < |order| ==> Older(known[id := e], id, order[k])
    ensures Lists(order[..k] + [id] + order[k..], known[id := e])
            && Ageing(order[..k] + [id] + order[k..], known[id := e])
  {
    var r, all := order[..k] + [id] + order[k..], known[id := e];
    InsertLists(order, known, id, e, k);
    forall i, j | 0 <= i < j < |r| ensures Older(all, r[i], r[j]) {
      assert forall m | 0 <= m < |order| :: order[m] in known;
      if i < k && j > k { assert Older(known, order[i], order[j - 1]); }
      if i > k { assert Older(known, order[i - 1], order[j - 1]); }
      if i == k && j > k + 1 { assert Older(known, order[k], order[j - 1]); }
    }
  }

  method InsertByAge(entries: map<Uuid, Entry>, order: seq<Uuid>, id: Uuid, ghost known: map<Uuid, Entry>)
    returns (r: seq<Uuid>)
    requires id in entries && id !in known && (forall k <- known :: k in entries && known[k] == entries[k])
    requires Lists(order, known) && Ageing(order, known)
    ensures Lists(r, known[id := entries[id]]) && Ageing(r, known[id := entries[id]])
  {
    var k := 0;
    assert forall m | 0 <= m < |order| :: order[m] in known;
    while k < |order| && Older(entries, order[k], id)
      invariant 0 <= k <= |order| && forall i | 0 <= i < k :: Older(entries, order[i], id)
    {
      k := k + 1;
    }
    InsertAges(order, known, id, entries[id], k);
    r := order[..k] + [id] + order[k..];
  }

  method EvictionOrder(entries: map<Uuid, Entry>) returns (order: seq<Uuid>)
    ensures IsEvictionOrder(order, entries)
  {
    order := [];
    var left := entries.Keys;
    ghost var known: map<Uuid, Entry> := map[];
    while left != {}
      invariant left <= entries.Keys && known.Keys == entries.Keys - left
      invariant forall k <- known :: known[k] == entries[k]
      invariant IsEvictionOrder(order, known)
      decreases |left|
    {
      var id :| id in left;
      order := InsertByAge(entries, order, id, known);
      known := known[id := entries[id]];
      left := left - {id};
    }
    assert known == entries;
  }

  // ---------------------------------------------------------------------------------
  // Choosing victims.

  predicate OverCeiling(index: Index, limits: Limits) {
    index.total > limits.maxBytes || |index.entries| > limits.maxEntries
  }

  predicate OverTarget(index: Index, limits: Limits) {
    index.total > Target(limits) || |index.entries| > limits.maxEntries
  }

  function Dropped(index: Index, id: Uuid): Index {
    if id in index.entries then Index(index.entries - {id}, SatSub(index.total, index.entries[id].bytes)) else index
  }

  /** The index after the first `n` of `order` were evicted. */
  function Evicted(index: Index, order: seq<Uuid>, n: nat): Index
    requires n <= |order|
  {
    if n == 0 then index else Dropped(Evicted(index, order, n - 1), order[n - 1])
  }

  /** `n` victims: the fewest that bring the index down to the target, or all there are. */
  ghost predicate FewestVictims(index: Index, limits: Limits, order: seq<Uuid>, n: nat)
    requires n <= |order|
  {
    if !OverCeiling(index, limits) then n == 0
    else
      && (forall k | 0 <= k < n :: OverTarget(Evicted(index, order, k), limits))
      && (n < |order| ==> !OverTarget(Evicted(index, order, n), limits))
  }

  function Ids(order: seq<Uuid>): set<Uuid> { set id | id in order }

  lemma {:induction false} EvictedEntries(index: Index, order: seq<Uuid>, n: nat)
    requires n <= |order|
    ensures Evicted(index, order, n).entries == index.entries - Ids(order[..n])
  {
    if n > 0 {
      EvictedEntries(index, order, n - 1);
      assert order[..n] == order[..n - 1] + [order[n - 1]];
    }
  }

  lemma DroppedIsExact(index: Index, id: Uuid)
    requires Exact(index)
    ensures Exact(Dropped(index, id)) && Dropped(index, id).total <= index.total
  {
    if id in index.entries { SumWithout(index.entries, id); }
  }

  lemma {:induction false} EvictedIsExact(index: Index, order: seq<Uuid>, n: nat)
    requires n <= |order| && Exact(index)
    ensures Exact(Evicted(index, order, n)) && Evicted(index, order, n).total <= index.total
  {
    if n > 0 {
      EvictedIsExact(index, order, n - 1);
      DroppedIsExact(Evicted(index, order, n - 1), order[n - 1]);
    }
  }

  lemma TargetFits(limits: Limits)
    ensures Target(limits) <= limits.maxBytes
  {
  }

  /** With an exact total, a purge always brings the index under both ceilings. */
  lemma PurgeMeetsCeilings(index: Index, limits: Limits, order: seq<Uuid>, n: nat)
    requires Exact(index) && IsEvictionOrder(order, index.entries) && n <= |order|
             && FewestVictims(index, limits, order, n)
    ensures var after := Evicted(index, order, n); Exact(after) && !OverCeiling(after, limits)
    ensures OverCeiling(index, limits) ==> !OverTarget(Evicted(index, order, n), limits)
    ensures var after := Evicted(index, order, n);
            if index.total <= limits.maxBytes && |index.entries| <= limits.maxEntries then after == index
            else after.total <= Target(limits) && |after.entries| <= limits.maxEntries
    ensures n > 0 ==> var before := Evicted(index, order, n - 1);
                      before.total > Target(limits) || |before.entries| > limits.maxEntries
  {
    EvictedIsExact(index, order, n);
    TargetFits(limits);
    if OverCeiling(index, limits) && n == |order| {
      EvictedEntries(index, order, n);
      assert order[..n] == order;
      assert Evicted(index, order, n).entries == map[];
    }
  }

  /** Victims are the least recently written: whoever stays was written after each of them. */
  lemma VictimsAreOldest(index: Index, order: seq<Uuid>, n: nat, victim: Uuid, kept: Uuid)
    requires IsEvictionOrder(order, index.entries) && n <= |order|
    requires victim in order[..n] && kept in Evicted(index, order, n).entries
    ensures victim in index.entries && kept in index.entries
    ensures index.entries[victim].time < index.entries[kept].time
            || (index.entries[victim].time == index.entries[kept].time && victim < kept)
  {
    EvictedEntries(index, order, n);
    var i :| 0 <= i < n && order[i] == victim;
    var j :| 0 <= j < |order| && order[j] == kept;
    assert forall k | 0 <= k < n :: order[k] == order[..n][k];
  }

  lemma EmptyTogether(a: seq<Uuid>, b: seq<Uuid>, entries: map<Uuid, Entry>)
    requires Lists(a, entries) && Lists(b, entries)
    ensures a == [] <==> b == []
  {
    if a != [] { assert a[0] in b; }
    if b != [] { assert b[0] in a; }
  }

  lemma FirstIsOldest(order: seq<Uuid>, entries: map<Uuid, Entry>, id: Uuid)
    requires IsEvictionOrder(order, entries) && id in entries
    ensures order != [] && order[0] in entries && (id == order[0] || Older(entries, order[0], id))
  {
    var i :| 0 <= i < |order| && order[i] == id;
    assert order[0] in order;
  }

  /** There is only one eviction order, so only one choice of victims. */
  lemma {:induction false} EvictionOrderIsUnique(a: seq<Uuid>, b: seq<Uuid>, entries: map<Uuid, Entry>)
    requires IsEvictionOrder(a, entries) && IsEvictionOrder(b, entries)
    ensures a == b
    decreases |a|
  {
    EmptyTogether(a, b, entries);
    if a != [] {
      assert a[0] in a && b[0] in b;
      FirstIsOldest(a, entries, b[0]);
      FirstIsOldest(b, entries, a[0]);
      TailOrder(a, entries);
      TailOrder(b, entries);
      EvictionOrderIsUnique(a[1..], b[1..], entries - {a[0]});
    }
  }

  lemma TailOrder(a: seq<Uuid>, entries: map<Uuid, Entry>)
    requires a != [] && IsEvictionOrder(a, entries)
    ensures IsEvictionOrder(a[1..], entries - {a[0]})
  {
    forall id ensures id in a[1..] <==> id in entries - {a[0]} {
      if id in a[1..] {
        var i :| 0 < i < |a| && a[i] == id;
        assert Older(entries, a[0], a[i]);
      }
      if id in entries - {a[0]} { assert id in a; }
    }
  }

  // ---------------------------------------------------------------------------------
  // The cache.

  class DiskCache {
    const limits: Limits
    var entries: map<Uuid, Entry>
    var total: nat
    var files: map<Uuid, Bytes>

    constructor (limits: Limits, index: Index, files: map<Uuid, Bytes>)
      ensures this.limits == limits && TheIndex() == index && this.files == files
    {
      this.limits := limits;
      entries := index.entries;
      total := index.total;
      this.files := files;
    }

    function TheIndex(): Index
      reads this`entries, this`total
    {
      Index(entries, total)
    }

    method Read(id: Uuid) returns (r: Option<Bytes>)
      ensures r == if id in files then Some(files[id]) else None
    {
      r := if id in files then Some(files[id]) else None;
    }

    method Record(id: Uuid, bytes: nat, now: nat)
      modifies this`entries, this`total
      ensures TheIndex() == Recorded(old(TheIndex()), id, Entry(bytes, now))
    {
      if id in entries {
        total := SatSub(total, entries[id].bytes);
      }
      entries := entries[id := Entry(bytes, now)];
      total := SatAdd(total, bytes);
    }

    method TakeVictims() returns (victims: seq<Uuid>, ghost order: seq<Uuid>)
      modifies this`entries, this`total
      ensures IsEvictionOrder(order, old(entries)) && |victims| <= |order| && victims == order[..|victims|]
      ensures FewestVictims(old(TheIndex()), limits, order, |victims|)
      ensures TheIndex() == Evicted(old(TheIndex()), order, |victims|)
    {
      var ids := EvictionOrder(entries);
      order := ids;
      victims := [];
      if total <= limits.maxBytes && |entries| <= limits.maxEntries {
        return;
      }
      victims := EvictFrom(ids);
    }

    /** Evicts from the front of `ids` until the index is down to the target. */
    method EvictFrom(ids: seq<Uuid>) returns (victims: seq<Uuid>)
      modifies this`entries, this`total
      ensures |victims| <= |ids| && victims == ids[..|victims|]
      ensures TheIndex() == Evicted(old(TheIndex()), ids, |victims|)
      ensures forall k | 0 <= k < |victims| :: OverTarget(Evicted(old(TheIndex()), ids, k), limits)
      ensures |victims| < |ids| ==> !OverTarget(TheIndex(), limits)
    {
      victims := [];
      ghost var was := TheIndex();
      while |victims| < |ids| && OverTarget(TheIndex(), limits)
        invariant |victims| <= |ids| && victims == ids[..|victims|]
        invariant TheIndex() == Evicted(was, ids, |victims|)
        invariant forall k | 0 <= k < |victims| :: OverTarget(Evicted(was, ids, k), limits)
        decreases |ids| - |victims|
      {
        Evict(ids[|victims|]);
        victims := victims + [ids[|victims|]];
      }
    }

    method Evict(id: Uuid)
      modifies this`entries, this`total
      ensures TheIndex() == Dropped(old(TheIndex()), id)
    {
      if id in entries {
        total := SatSub(total, entries[id].bytes);
        entries := entries - {id};
      }
    }

    /** Removes the files of evicted assets; those in `stuck` cannot be removed. */
    method Purge(stuck: set<Uuid>) returns (ghost order: seq<Uuid>, ghost n: nat)
      modifies this`entries, this`total, this`files
      ensures IsEvictionOrder(order, old(entries)) && n <= |order| && FewestVictims(old(TheIndex()), limits, order, n)
      ensures TheIndex() == Evicted(old(TheIndex()), order, n)
      ensures files == old(files) - (Ids(order[..n]) - stuck)
    {
      var victims;
      victims, order := TakeVictims();
      n := |victims|;
      RemoveFiles(victims, stuck);
    }

    method RemoveFiles(victims: seq<Uuid>, stuck: set<Uuid>)
      modifies this`files
      ensures files == old(files) - (Ids(victims) - stuck)
    {
      var k := 0;
      while k < |victims|
        invariant 0 <= k <= |victims|
        invariant files == old(files) - (Ids(victims[..k]) - stuck)
      {
        assert victims[..k + 1] == victims[..k] + [victims[k]];
        assert Ids(victims[..k + 1]) == Ids(victims[..k]) + {victims[k]};
        if victims[k] !in stuck {
          files := files - {victims[k]};
        }
        k := k + 1;
      }
      assert victims[..k] == victims;
    }

    /** Stores `data`, unless the file cannot be written. */
    method Write(id: Uuid, data: Bytes, now: nat, writable: bool, stuck: set<Uuid>)
      returns (ok: bool, ghost order: seq<Uuid>, ghost n: nat)
      requires |data| <= U64_MAX
      modifies this`entries, this`total, this`files
      ensures ok == writable
      ensures !ok ==> TheIndex() == old(TheIndex()) && files == old(files)
      ensures ok ==> var recorded := Recorded(old(TheIndex()), id, Entry(|data|, now));
                     && IsEvictionOrder(order, recorded.entries) && n <= |order|
                         && FewestVictims(recorded, limits, order, n)
                     && TheIndex() == Evicted(recorded, order, n)
                     && files == old(files)[id := data] - (Ids(order[..n]) - stuck)
      ensures ok ==> (id in files <==> id !in order[..n] || id in stuck) && (id in files ==> files[id] == data)
    {
      ok, order, n := writable, [], 0;
      if !writable {
        return;
      }
      files := files[id := data];
      Record(id, |data|, now);
      order, n := Purge(stuck);
    }
  }

  // ---------------------------------------------------------------------------------
  // Opening the cache.

  type Found = seq<(Uuid, Entry)>

  function Scanned(found: Found): Index {
    if found == [] then Index(map[], 0)
    else
      var front := Scanned(found[..|found| - 1]);
      var (id, e) := found[|found| - 1];
      Index(front.entries[id := e], SatAdd(front.total, e.bytes))
  }

  method ScanIndex(found: Found) returns (index: Index)
    ensures index == Scanned(found)
  {
    var entries: map<Uuid, Entry>, total := map[], 0;
    for k := 0 to |found|
      invariant Index(entries, total) == Scanned(found[..k])
    {
      assert found[..k + 1][..k] == found[..k];
      total := SatAdd(total, found[k].1.bytes);
      entries := entries[found[k].0 := found[k].1];
    }
    assert found[..|found|] == found;
    index := Index(entries, total);
  }

  function AllBytes(found: Found): nat {
    if found == [] then 0 else AllBytes(found[..|found| - 1]) + found[|found| - 1].1.bytes
  }

  /** The bytes of files whose id a later file has too. */
  function Shadowed(found: Found): nat {
    if found == [] then 0
    else
      var front, id := found[..|found| - 1], found[|found| - 1].0;
      Shadowed(front) + if id in Scanned(front).entries then Scanned(front).entries[id].bytes else 0
  }

  lemma {:induction false} ScanCountsShadowed(found: Found)
    ensures Scanned(found).total == if AllBytes(found) <= U64_MAX then AllBytes(found) else U64_MAX
    ensures AllBytes(found) == Sum(Scanned(found).entries) + Shadowed(found)
  {
    if found != [] {
      var front := found[..|found| - 1];
      var (id, e) := found[|found| - 1];
      ScanCountsShadowed(front);
      var entries := Scanned(front).entries;
      SumWith(entries, id, e);
      if id in entries { SumWithout(entries, id); } else { assert entries - {id} == entries; }
    }
  }

  /** File `i` is the last of those before `n` with its id. */
  predicate LastOfId(found: Found, n: nat, i: int, id: Uuid) {
    0 <= i < n <= |found| && found[i].0 == id && forall j | i < j < n :: found[j].0 != id
  }

  lemma {:induction false} ScanKeepsLast(found: Found, id: Uuid)
    ensures id in Scanned(found).entries <==> exists i :: 0 <= i < |found| && found[i].0 == id
    ensures id in Scanned(found).entries ==> exists i ::
              LastOfId(found, |found|, i, id) && Scanned(found).entries[id] == found[i].1
  {
    if found != [] {
      var n, front := |found| - 1, found[..|found| - 1];
      ScanKeepsLast(front, id);
      assert forall i | 0 <= i < n :: found[i] == front[i];
      if found[n].0 == id {
        assert LastOfId(found, |found|, n, id);
      } else if id in Scanned(front).entries {
        var i :| LastOfId(front, n, i, id) && Scanned(front).entries[id] == front[i].1;
        assert LastOfId(found, |found|, i, id);
      }
    }
  }

  /** Of any two files with one id, the earlier is empty. */
  ghost predicate ShadowedAreEmpty(found: Found) {
    forall i, j | 0 <= i < j < |found| :: found[i].0 == found[j].0 ==> found[i].1.bytes == 0
  }

  lemma {:induction false} NothingShadowed(found: Found)
    ensures Shadowed(found) == 0 <==> ShadowedAreEmpty(found)
  {
    if found != [] {
      var n, front := |found| - 1, found[..|found| - 1];
      NothingShadowed(front);
      ScanKeepsLast(front, found[n].0);
      assert forall i | 0 <= i < n :: found[i] == front[i];
      if Shadowed(found) == 0 {
        forall i | 0 <= i < n && found[i].0 == found[n].0 ensures found[i].1.bytes == 0 {
          var k :| LastOfId(front, n, k, found[n].0) && Scanned(front).entries[found[n].0] == front[k].1;
          assert i == k || (i < k && front[i].0 == front[k].0);
        }
        assert ShadowedAreEmpty(found);
      }
    }
  }

  /** Exactly when opening the cache counts right: no file that holds anything shares its id with a
      later one.  Beyond 64 bits it does only if what is kept happens to come to the largest number. */
  lemma ScanIsExact(found: Found)
    ensures AllBytes(found) <= U64_MAX ==> (Exact(Scanned(found)) <==> ShadowedAreEmpty(found))
    ensures AllBytes(found) > U64_MAX ==> (Exact(Scanned(found)) <==> Sum(Scanned(found).entries) == U64_MAX)
  {
    ScanCountsShadowed(found);
    NothingShadowed(found);
  }

  /** Two files of one id, of five and of seven bytes: the total counts twelve, the index holds seven. */
  lemma ShadowedIsCounted()
    ensures var found: Found := [(1, Entry(5, 0)), (1, Entry(7, 0))];
            Scanned(found) == Index(map[1 := Entry(7, 0)], 12) && !Exact(Scanned(found))
  {
    var found: Found := [(1, Entry(5, 0)), (1, Entry(7, 0))];
    assert found[..1] == [(1, Entry(5, 0))] && found[..1][..0] == [];
    assert AllBytes(found[..1]) == 5 && Scanned(found[..1]) == Index(map[1 := Entry(5, 0)], 5);
    assert AllBytes(found) == 12;
    assert found[0].0 == found[1].0;
    ScanIsExact(found);
  }

  // ---------------------------------------------------------------------------------
  // Every interleaving of the atomic steps of any number of readers and writers.

  datatype State = State(index: Index, disk: D.Disk)

  datatype Op = File(step: D.Op) | Note(id: Uuid, entry: Entry) | Evict(order: seq<Uuid>, n: nat)

  /** One step: a step of some write or removal of a file, a write is recorded, or victims are chosen. */
  ghost predicate Next(limits: Limits, s: State, op: Op, s': State) {
    match op
    case File(step) => D.Possible(s.disk, step) && s' == s.(disk := D.Done(s.disk, step))
    case Note(id, e) => s' == s.(index := Recorded(s.index, id, e))
    case Evict(order, n) =>
      && IsEvictionOrder(order, s.index.entries) && n <= |order| && FewestVictims(s.index, limits, order, n)
      && s' == s.(index := Evicted(s.index, order, n))
  }

  ghost predicate NextAt(limits: Limits, run: seq<State>, ops: seq<Op>, i: nat)
    requires i < |ops| && |run| == |ops| + 1
  {
    Next(limits, run[i], ops[i], run[i + 1])
  }

  ghost predicate IsRun(limits: Limits, run: seq<State>, ops: seq<Op>) {
    |run| == |ops| + 1 && forall i: nat | i < |ops| :: NextAt(limits, run, ops, i)
  }

  /** Step `i` starts no write of an id that is being written. */
  ghost predicate ApartAt(run: seq<State>, ops: seq<Op>, i: nat)
    requires i < |ops| && |run| == |ops| + 1
  {
    ops[i].File? ==> D.KeepsApart(run[i].disk, ops[i].step)
  }

  /** While the writes of one id do not overlap, every hit reads the last bytes written for its id,
      whatever is recorded, evicted or removed in between. */
  lemma {:induction false} HitsAreLastWritten(limits: Limits, run: seq<State>, ops: seq<Op>, n: nat)
    requires IsRun(limits, run, ops) && n < |run| && D.Orderly(run[0].disk)
    requires forall i: nat | i < n :: ApartAt(run, ops, i)
    ensures D.Orderly(run[n].disk) && D.HoldsLastWritten(run[n].disk)
  {
    if n > 0 {
      HitsAreLastWritten(limits, run, ops, n - 1);
      assert NextAt(limits, run, ops, n - 1) && ApartAt(run, ops, n - 1);
      StepStaysOrderly(limits, run[n - 1], ops[n - 1], run[n]);
    }
  }

  lemma StepStaysOrderly(limits: Limits, s: State, op: Op, s': State)
    requires D.Orderly(s.disk) && Next(limits, s, op, s') && (op.File? ==> D.KeepsApart(s.disk, op.step))
    ensures D.Orderly(s'.disk)
  {
    if op.File? { D.StaysOrderly(s.disk, op.step); }
  }

  /** The sizes of the recorded assets fit in 64 bits. */
  ghost predicate Fits(s: State, op: Op) { op.Note? ==> Sum(s.index.entries[op.id := op.entry]) <= U64_MAX }

  ghost predicate FitsAt(run: seq<State>, ops: seq<Op>, i: nat)
    requires i < |ops| && |run| == |ops| + 1
  {
    Fits(run[i], ops[i])
  }

  /** The total stays exact, and every choice of victims leaves the index under both ceilings. */
  lemma {:induction false} TotalStaysExact(limits: Limits, run: seq<State>, ops: seq<Op>, n: nat)
    requires IsRun(limits, run, ops) && n < |run| && Exact(run[0].index)
    requires forall i: nat | i < n :: FitsAt(run, ops, i)
    ensures Exact(run[n].index)
    ensures n > 0 && ops[n - 1].Evict? ==> !OverCeiling(run[n].index, limits)
  {
    if n > 0 {
      TotalStaysExact(limits, run, ops, n - 1);
      assert NextAt(limits, run, ops, n - 1) && FitsAt(run, ops, n - 1);
      var s := run[n - 1];
      match ops[n - 1]
      case Note(id, e) => RecordedIsExact(s.index, id, e);
      case Evict(order, k) => PurgeMeetsCeilings(s.index, limits, order, k);
      case File(_) =>
    }
  }

  /** Every recorded asset has a file of the recorded size. */
  ghost predicate Backed(index: Index, files: map<Uuid, Bytes>) {
    forall id <- index.entries :: id in files && |files[id]| == index.entries[id].bytes
  }

  ghost predicate Healthy(limits: Limits, index: Index, files: map<Uuid, Bytes>) {
    Exact(index) && !OverCeiling(index, limits) && Backed(index, files)
  }

  lemma StaysBacked(index: Index, files: map<Uuid, Bytes>, id: Uuid, data: Bytes, now: nat, order: seq<Uuid>, n: nat,
                    stuck: set<Uuid>)
    requires Backed(index, files) && n <= |order|
    ensures Backed(Evicted(Recorded(index, id, Entry(|data|, now)), order, n),
                   files[id := data] - (Ids(order[..n]) - stuck))
  {
    EvictedEntries(Recorded(index, id, Entry(|data|, now)), order, n);
  }

  /** One writer at a time keeps the index exact, within its ceilings, and backed by files. */
  lemma WriteKeepsHealthy(limits: Limits, index: Index, files: map<Uuid, Bytes>, id: Uuid, data: Bytes, now: nat,
                          order: seq<Uuid>, n: nat, stuck: set<Uuid>)
    requires Healthy(limits, index, files) && limits.maxBytes + |data| <= U64_MAX
    requires var recorded := Recorded(index, id, Entry(|data|, now));
             IsEvictionOrder(order, recorded.entries) && n <= |order| && FewestVictims(recorded, limits, order, n)
    ensures Healthy(limits, Evicted(Recorded(index, id, Entry(|data|, now)), order, n),
                    files[id := data] - (Ids(order[..n]) - stuck))
  {
    var e := Entry(|data|, now);
    SumStaysSmall(index.entries, id, e);
    RecordedIsExact(index, id, e);
    PurgeMeetsCeilings(Recorded(index, id, e), limits, order, n);
    StaysBacked(index, files, id, data, now, order, n, stuck);
  }

  lemma SumStaysSmall(entries: map<Uuid, Entry>, id: Uuid, e: Entry)
    ensures Sum(entries[id := e]) <= Sum(entries) + e.bytes
  {
    SumWith(entries, id, e);
    if id in entries { SumWithout(entries, id); } else { assert entries - {id} == entries; }
  }

  /** An asset just written survives its own purge if it alone fits the target and nothing recorded is newer. */
  lemma JustWrittenSurvives(limits: Limits, index: Index, id: Uuid, e: Entry, order: seq<Uuid>, n: nat)
    requires Exact(index) && Sum(index.entries[id := e]) <= U64_MAX
    requires e.bytes <= Target(limits) && limits.maxEntries > 0
    requires forall other <- index.entries :: other != id ==> Older(index.entries[id := e], other, id)
    requires IsEvictionOrder(order, index.entries[id := e]) && n <= |order|
    requires FewestVictims(Recorded(index, id, e), limits, order, n)
    ensures id in Evicted(Recorded(index, id, e), order, n).entries
  {
    var recorded := Recorded(index, id, e);
    NewestIsLast(recorded.entries, order, id);
    RecordedIsExact(index, id, e);
    OnlyLastLeft(recorded, order, id);
    assert n < |order|;
    EvictedEntries(recorded, order, n);
    NotYet(order, n, id);
  }

  lemma NotYet(order: seq<Uuid>, n: nat, id: Uuid)
    requires n < |order| && id !in order[..|order| - 1]
    ensures id !in order[..n]
  {
    assert order[..n] == order[..|order| - 1][..n];
  }

  lemma LastIsYoungest(order: seq<Uuid>, entries: map<Uuid, Entry>, id: Uuid)
    requires IsEvictionOrder(order, entries) && id in entries
    ensures order != [] && order[|order| - 1] in entries
    ensures id == order[|order| - 1] || Older(entries, id, order[|order| - 1])
  {
    var i :| 0 <= i < |order| && order[i] == id;
    assert order[|order| - 1] in order;
  }

  lemma AllButLast(entries: map<Uuid, Entry>, order: seq<Uuid>)
    requires IsEvictionOrder(order, entries) && order != []
    ensures var id := order[|order| - 1]; id in entries && entries - Ids(order[..|order| - 1]) == map[id := entries[id]]
  {
    var n, id := |order| - 1, order[|order| - 1];
    assert id in order;
    forall x <- entries ensures x in order[..n] <==> x != id {
      assert x in order && order == order[..n] + [id];
      assert forall k | 0 <= k < n :: Older(entries, order[k], order[n]);
    }
  }

  lemma NewestIsLast(entries: map<Uuid, Entry>, order: seq<Uuid>, id: Uuid)
    requires IsEvictionOrder(order, entries) && id in entries
    requires forall other <- entries :: other != id ==> Older(entries, other, id)
    ensures order != [] && order[|order| - 1] == id && id !in order[..|order| - 1]
  {
    LastIsYoungest(order, entries, id);
    AllButLast(entries, order);
    assert id in entries - Ids(order[..|order| - 1]);
  }

  /** Once all but the newest are gone, only its size counts. */
  lemma OnlyLastLeft(index: Index, order: seq<Uuid>, id: Uuid)
    requires Exact(index) && IsEvictionOrder(order, index.entries) && order != [] && order[|order| - 1] == id
    ensures id in index.entries
    ensures var left := Evicted(index, order, |order| - 1); left.total == index.entries[id].bytes && |left.entries| == 1
  {
    var n := |order| - 1;
    EvictedEntries(index, order, n);
    EvictedIsExact(index, order, n);
    AllButLast(index.entries, order);
    var left := map[id := index.entries[id]];
    SumWithout(left, id);
    assert left - {id} == map[];
  }
}

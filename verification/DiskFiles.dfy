/** The cached files as a file system sees them: paths, inodes, and writers that share a temporary file. */
module DiskFiles {
  // A write creates or truncates the temporary file of its id, writes the bytes in as many pieces
  // as it takes, and renames the file into place.  The temporary name depends on the id and the
  // process only, so that two writers of one id open the same file.

  type Uuid = nat

  type Bytes = seq<int>

  type Inode = nat

  /** A write under way: where its open file lives, and how much of `data` is written. */
  datatype Writer = Writer(id: Uuid, data: Bytes, inode: Inode, offset: nat)

  /** `written` notes, for every id, the bytes of the last write that was renamed into place. */
  datatype Disk = Disk(
    files: map<Uuid, Inode>, temps: map<Uuid, Inode>, contents: seq<Bytes>, writers: map<nat, Writer>,
    written: map<Uuid, Bytes>)

  datatype Op =
    | Create(w: nat, id: Uuid, data: Bytes)
    | Put(w: nat, n: nat)
    | Rename(w: nat)
    | Fail(w: nat)
    | Unlink(id: Uuid)

  function Zeros(n: nat): (z: Bytes)
    ensures |z| == n && forall i | 0 <= i < n :: z[i] == 0
  {
    seq(n, _ => 0)
  }

  /** What a file holds after `piece` is written at `at`; a gap reads as zeros. */
  function Overwritten(was: Bytes, at: nat, piece: Bytes): Bytes {
    if |was| <= at then was + Zeros(at - |was|) + piece
    else if |was| <= at + |piece| then was[..at] + piece
    else was[..at] + piece + was[at + |piece|..]
  }

  predicate Possible(d: Disk, op: Op) {
    match op
    case Create(w, id, _) => w !in d.writers && (id in d.temps ==> d.temps[id] < |d.contents|)
    case Put(w, n) =>
      && w in d.writers && n > 0 && d.writers[w].offset + n <= |d.writers[w].data|
      && d.writers[w].inode < |d.contents|
    case Rename(w) => w in d.writers && d.writers[w].offset == |d.writers[w].data|
    case Fail(w) => w in d.writers
    case Unlink(id) => true
  }

  function Created(d: Disk, w: nat, id: Uuid, data: Bytes): Disk
    requires Possible(d, Create(w, id, data))
  {
    if id in d.temps then
      d.(contents := d.contents[d.temps[id] := []], writers := d.writers[w := Writer(id, data, d.temps[id], 0)])
    else
      d.(contents := d.contents + [[]], temps := d.temps[id := |d.contents|],
         writers := d.writers[w := Writer(id, data, |d.contents|, 0)])
  }

  function Done(d: Disk, op: Op): Disk
    requires Possible(d, op)
  {
    match op
    case Create(w, id, data) => Created(d, w, id, data)
    case Put(w, n) =>
      var p := d.writers[w];
      var piece := p.data[p.offset..p.offset + n];
      d.(contents := d.contents[p.inode := Overwritten(d.contents[p.inode], p.offset, piece)],
         writers := d.writers[w := p.(offset := p.offset + n)])
    case Rename(w) =>
      var id, rest := d.writers[w].id, d.writers - {w};
      if id in d.temps then
        d.(files := d.files[id := d.temps[id]], temps := d.temps - {id}, writers := rest,
           written := d.written[id := d.writers[w].data])
      else d.(writers := rest)
    case Fail(w) => d.(writers := d.writers - {w})
    case Unlink(id) => d.(files := d.files - {id})
  }

  /** What a hit for each id reads. */
  function Hits(d: Disk): map<Uuid, Bytes> {
    map id | id in d.files && d.files[id] < |d.contents| :: d.contents[d.files[id]]
  }

  /** Every hit reads what was last written for its id. */
  ghost predicate HoldsLastWritten(d: Disk) {
    forall id <- d.files :: d.files[id] < |d.contents| && id in d.written && d.contents[d.files[id]] == d.written[id]
  }

  // ---------------------------------------------------------------------------------
  // Writers that keep apart.

  /** No write of the id is under way. */
  ghost predicate Free(d: Disk, id: Uuid) { forall w <- d.writers :: d.writers[w].id != id }

  /** The step starts no write of an id that is being written. */
  ghost predicate KeepsApart(d: Disk, op: Op) { op.Create? ==> Free(d, op.id) }

  /** Different temporary paths are different files, and none of them is in place. */
  ghost predicate PathsApart(d: Disk) {
    && (forall id <- d.temps :: d.temps[id] < |d.contents|)
    && (forall a <- d.temps, b <- d.temps :: a != b ==> d.temps[a] != d.temps[b])
    && (forall a <- d.files, b <- d.temps :: d.files[a] != d.temps[b])
  }

  /** The writer alone owns its temporary file, which holds what it has written so far. */
  ghost predicate Owns(d: Disk, p: Writer) {
    && p.offset <= |p.data| && p.id in d.temps && d.temps[p.id] == p.inode < |d.contents|
    && d.contents[p.inode] == p.data[..p.offset]
  }

  ghost predicate WritersApart(d: Disk) {
    && (forall v <- d.writers, w <- d.writers :: v != w ==> d.writers[v].id != d.writers[w].id)
    && (forall w <- d.writers :: Owns(d, d.writers[w]))
  }

  ghost predicate Orderly(d: Disk) { HoldsLastWritten(d) && PathsApart(d) && WritersApart(d) }

  lemma PutAppends(p: Writer, n: nat)
    requires p.offset + n <= |p.data|
    ensures Overwritten(p.data[..p.offset], p.offset, p.data[p.offset..p.offset + n]) == p.data[..p.offset + n]
  {
    assert p.data[..p.offset] + Zeros(0) == p.data[..p.offset];
  }

  lemma CreateKeepsHits(d: Disk, w: nat, id: Uuid, data: Bytes)
    requires HoldsLastWritten(d) && PathsApart(d) && Possible(d, Create(w, id, data))
    ensures HoldsLastWritten(Created(d, w, id, data))
  {
    var d' := Created(d, w, id, data);
    forall f <- d'.files
      ensures d'.files[f] < |d'.contents| && f in d'.written && d'.contents[d'.files[f]] == d'.written[f]
    {
      assert id in d.temps ==> d.files[f] != d.temps[id];
    }
  }

  lemma CreateKeepsPaths(d: Disk, w: nat, id: Uuid, data: Bytes)
    requires HoldsLastWritten(d) && PathsApart(d) && Possible(d, Create(w, id, data))
    ensures PathsApart(Created(d, w, id, data))
  {
    var d' := Created(d, w, id, data);
    if id in d.temps {
      assert d'.temps == d.temps && |d'.contents| == |d.contents|;
    } else {
      assert d'.temps == d.temps[id := |d.contents|] && d'.files == d.files;
    }
  }

  /** A new write leaves the temporary files of the other ids alone. */
  lemma CreateKeepsOwner(d: Disk, w: nat, id: Uuid, data: Bytes, p: Writer)
    requires PathsApart(d) && Possible(d, Create(w, id, data)) && Owns(d, p) && p.id != id
    ensures Owns(Created(d, w, id, data), p)
  {
    assert id in d.temps ==> d.temps[id] != d.temps[p.id];
  }

  lemma CreateKeepsWriters(d: Disk, w: nat, id: Uuid, data: Bytes)
    requires PathsApart(d) && WritersApart(d) && Possible(d, Create(w, id, data)) && Free(d, id)
    ensures WritersApart(Created(d, w, id, data))
  {
    var d' := Created(d, w, id, data);
    var p := d'.writers[w];
    assert d'.writers == d.writers[w := p] && p.id == id && Owns(d', p);
    forall v <- d'.writers ensures Owns(d', d'.writers[v]) {
      if v != w { CreateKeepsOwner(d, w, id, data, d.writers[v]); }
    }
  }

  lemma CreateStaysOrderly(d: Disk, w: nat, id: Uuid, data: Bytes)
    requires Orderly(d) && Possible(d, Create(w, id, data)) && Free(d, id)
    ensures Orderly(Created(d, w, id, data))
  {
    CreateKeepsHits(d, w, id, data);
    CreateKeepsPaths(d, w, id, data);
    CreateKeepsWriters(d, w, id, data);
  }

  lemma PutKeepsHits(d: Disk, w: nat, n: nat)
    requires Orderly(d) && Possible(d, Put(w, n))
    ensures HoldsLastWritten(Done(d, Put(w, n))) && PathsApart(Done(d, Put(w, n)))
  {
    assert Owns(d, d.writers[w]);
  }

  lemma PutKeepsOwner(d: Disk, w: nat, n: nat, v: nat)
    requires PathsApart(d) && WritersApart(d) && Possible(d, Put(w, n)) && v in d.writers
    ensures Owns(Done(d, Put(w, n)), Done(d, Put(w, n)).writers[v])
  {
    assert Owns(d, d.writers[w]) && Owns(d, d.writers[v]);
    if v == w { PutAppends(d.writers[w], n); }
  }

  lemma PutStaysOrderly(d: Disk, w: nat, n: nat)
    requires Orderly(d) && Possible(d, Put(w, n))
    ensures Orderly(Done(d, Put(w, n)))
  {
    PutKeepsHits(d, w, n);
    forall v <- d.writers ensures Owns(Done(d, Put(w, n)), Done(d, Put(w, n)).writers[v]) {
      PutKeepsOwner(d, w, n, v);
    }
  }

  lemma RenameStaysOrderly(d: Disk, w: nat)
    requires Orderly(d) && Possible(d, Rename(w))
    ensures Orderly(Done(d, Rename(w)))
  {
    var d', p := Done(d, Rename(w)), d.writers[w];
    assert Owns(d, p) && p.data[..p.offset] == p.data;
    forall v <- d'.writers ensures Owns(d', d'.writers[v]) {
      assert Owns(d, d.writers[v]);
    }
  }

  lemma StaysOrderly(d: Disk, op: Op)
    requires Orderly(d) && Possible(d, op) && KeepsApart(d, op)
    ensures Orderly(Done(d, op))
  {
    match op
    case Create(w, id, data) => CreateStaysOrderly(d, w, id, data);
    case Put(w, n) => PutStaysOrderly(d, w, n);
    case Rename(w) => RenameStaysOrderly(d, w);
    case Fail(w) =>
      forall v <- Done(d, op).writers ensures Owns(Done(d, op), d.writers[v]) { assert Owns(d, d.writers[v]); }
    case Unlink(id) =>
      forall v <- d.writers ensures Owns(Done(d, op), d.writers[v]) { assert Owns(d, d.writers[v]); }
  }

  // ---------------------------------------------------------------------------------
  // Runs.

  ghost predicate CanRun(d: Disk, ops: seq<Op>)
    decreases |ops|
  {
    ops == [] || (Possible(d, ops[0]) && CanRun(Done(d, ops[0]), ops[1..]))
  }

  ghost function After(d: Disk, ops: seq<Op>): Disk
    requires CanRun(d, ops)
    decreases |ops|
  {
    if ops == [] then d else After(Done(d, ops[0]), ops[1..])
  }

  /** No write of the run starts while another of its id is under way. */
  ghost predicate RunsApart(d: Disk, ops: seq<Op>)
    requires CanRun(d, ops)
    decreases |ops|
  {
    ops == [] || (KeepsApart(d, ops[0]) && RunsApart(Done(d, ops[0]), ops[1..]))
  }

  lemma RunFrom(d: Disk, op: Op, ops: seq<Op>)
    requires Possible(d, op) && KeepsApart(d, op) && CanRun(Done(d, op), ops) && RunsApart(Done(d, op), ops)
    ensures CanRun(d, [op] + ops) && RunsApart(d, [op] + ops) && After(d, [op] + ops) == After(Done(d, op), ops)
  {
    assert ([op] + ops)[1..] == ops;
  }

  lemma RunOne(d: Disk, op: Op)
    requires Possible(d, op) && KeepsApart(d, op)
    ensures CanRun(d, [op]) && RunsApart(d, [op]) && After(d, [op]) == Done(d, op)
  {
    RunFrom(d, op, []);
    assert [op] + [] == [op];
  }

  lemma RunTwo(d: Disk, op: Op, next: Op)
    requires Possible(d, op) && KeepsApart(d, op) && Possible(Done(d, op), next) && KeepsApart(Done(d, op), next)
    ensures CanRun(d, [op, next]) && RunsApart(d, [op, next]) && After(d, [op, next]) == Done(Done(d, op), next)
  {
    RunOne(Done(d, op), next);
    RunFrom(d, op, [next]);
    assert [op] + [next] == [op, next];
  }

  /** In every interleaving in which the writes of one id do not overlap, a hit reads what was last
      written for the id, whichever writes fail and whatever is evicted. */
  lemma {:induction false} HitsAreLastWritten(d: Disk, ops: seq<Op>)
    requires Orderly(d) && CanRun(d, ops) && RunsApart(d, ops)
    ensures Orderly(After(d, ops)) && HoldsLastWritten(After(d, ops))
    decreases |ops|
  {
    if ops != [] {
      StaysOrderly(d, ops[0]);
      HitsAreLastWritten(Done(d, ops[0]), ops[1..]);
    }
  }

  /** The steps of a write that nothing interrupts. */
  function WholeWrite(w: nat, id: Uuid, data: Bytes): seq<Op> {
    [Create(w, id, data)] + if data == [] then [Rename(w)] else [Put(w, |data|), Rename(w)]
  }

  lemma HitsAfterRename(d: Disk, w: nat)
    requires Orderly(d) && Possible(d, Rename(w))
    ensures Hits(Done(d, Rename(w))) == Hits(d)[d.writers[w].id := d.writers[w].data]
  {
    var p := d.writers[w];
    assert Owns(d, p) && p.data[..p.offset] == p.data;
  }

  lemma HitsWhileWriting(d: Disk, op: Op)
    requires Orderly(d) && Possible(d, op) && (op.Create? || op.Put?)
    ensures Hits(Done(d, op)) == Hits(d)
  {
    if op.Put? { assert Owns(d, d.writers[op.w]); }
  }

  /** A write that runs by itself replaces the hit for its id and no other. */
  lemma WholeWriteReplacesHit(d: Disk, w: nat, id: Uuid, data: Bytes)
    requires Orderly(d) && w !in d.writers && Free(d, id)
    ensures CanRun(d, WholeWrite(w, id, data)) && RunsApart(d, WholeWrite(w, id, data))
    ensures Hits(After(d, WholeWrite(w, id, data))) == Hits(d)[id := data]
  {
    var d1 := Created(d, w, id, data);
    CreateStaysOrderly(d, w, id, data);
    HitsWhileWriting(d, Create(w, id, data));
    if data == [] {
      HitsAfterRename(d1, w);
      RunOne(d1, Rename(w));
      RunFrom(d, Create(w, id, data), [Rename(w)]);
    } else {
      var d2 := Done(d1, Put(w, |data|));
      PutStaysOrderly(d1, w, |data|);
      HitsWhileWriting(d1, Put(w, |data|));
      HitsAfterRename(d2, w);
      RunTwo(d1, Put(w, |data|), Rename(w));
      RunFrom(d, Create(w, id, data), [Put(w, |data|), Rename(w)]);
    }
  }

  /** No temporary path leads to the inode. */
  ghost predicate Sealed(d: Disk, inode: Inode) {
    inode < |d.contents| && forall id <- d.temps :: d.temps[id] != inode
  }

  lemma SealedStep(d: Disk, op: Op, inode: Inode)
    requires Orderly(d) && Possible(d, op) && Sealed(d, inode)
    ensures Sealed(Done(d, op), inode) && Done(d, op).contents[inode] == d.contents[inode]
  {
    if op.Put? { assert Owns(d, d.writers[op.w]); }
  }

  /** A reader that has opened a file in place reads it whole, however slowly: its bytes no longer
      change, though the id be written again or evicted meanwhile. */
  lemma {:induction false} OpenFilesStayWhole(d: Disk, ops: seq<Op>, id: Uuid)
    requires Orderly(d) && CanRun(d, ops) && RunsApart(d, ops) && id in d.files
    ensures d.files[id] < |After(d, ops).contents| && After(d, ops).contents[d.files[id]] == d.written[id]
  {
    StaysSealed(d, ops, d.files[id]);
  }

  lemma {:induction false} StaysSealed(d: Disk, ops: seq<Op>, inode: Inode)
    requires Orderly(d) && CanRun(d, ops) && RunsApart(d, ops) && Sealed(d, inode)
    ensures inode < |After(d, ops).contents| && After(d, ops).contents[inode] == d.contents[inode]
    decreases |ops|
  {
    if ops != [] {
      SealedStep(d, ops[0], inode);
      StaysOrderly(d, ops[0]);
      StaysSealed(Done(d, ops[0]), ops[1..], inode);
    }
  }

  // ---------------------------------------------------------------------------------
  // Writers of one id that overlap.

  const EMPTY := Disk(map[], map[], [], map[], map[])

  /** Two writes of one id: the second truncates the file that the first then renames into place. */
  const TORN: seq<Op> := [Create(0, 7, [1, 2]), Put(0, 2), Create(1, 7, [3, 4]), Rename(0)]

  lemma Pieces()
    ensures Overwritten([], 0, [1, 2][0..2]) == [1, 2] && Overwritten([], 0, [3, 4][0..1]) == [3]
  {
    assert [] + Zeros(0) == [];
    assert [1, 2][0..2] == [1, 2] && [3, 4][0..1] == [3];
  }

  /** The disk before the second write starts, and the disk once the first is in place. */
  lemma TornDisks() returns (half: Disk, torn: Disk)
    ensures Possible(EMPTY, TORN[0]) && Possible(Done(EMPTY, TORN[0]), TORN[1])
    ensures half == Done(Done(EMPTY, TORN[0]), TORN[1])
    ensures Possible(half, TORN[2]) && Possible(Done(half, TORN[2]), TORN[3])
    ensures torn == Done(Done(half, TORN[2]), TORN[3])
    ensures torn == Disk(map[7 := 0], map[], [[]], map[1 := Writer(7, [3, 4], 0, 0)], map[7 := [1, 2]])
  {
    Pieces();
    var first := Writer(7, [1, 2], 0, 2);
    half := Done(Done(EMPTY, TORN[0]), TORN[1]);
    assert half == Disk(map[], map[7 := 0], [[1, 2]], map[0 := first], map[]);
    var begun := Done(half, TORN[2]);
    assert begun == Disk(map[], map[7 := 0], [[]], map[0 := first, 1 := Writer(7, [3, 4], 0, 0)], map[]);
    torn := Done(begun, TORN[3]);
    assert begun.writers - {0} == map[1 := Writer(7, [3, 4], 0, 0)];
  }

  lemma RunOnly(d: Disk, ops: seq<Op>)
    requires ops != [] && Possible(d, ops[0]) && CanRun(Done(d, ops[0]), ops[1..])
    ensures CanRun(d, ops) && After(d, ops) == After(Done(d, ops[0]), ops[1..])
  {
  }

  lemma RunPair(d: Disk, ops: seq<Op>)
    requires |ops| == 2 && Possible(d, ops[0]) && Possible(Done(d, ops[0]), ops[1])
    ensures CanRun(d, ops) && After(d, ops) == Done(Done(d, ops[0]), ops[1])
  {
    RunOnly(Done(d, ops[0]), ops[1..]);
    RunOnly(d, ops);
  }

  /** The hit is empty, although `[1, 2]` was last written; when the second writer goes on, its
      bytes appear in place piece by piece. */
  lemma TornHit()
    ensures Orderly(EMPTY) && CanRun(EMPTY, TORN)
    ensures var d := After(EMPTY, TORN);
            && Hits(d) == map[7 := []] && d.written == map[7 := [1, 2]] && Possible(d, Put(1, 1))
            && Hits(Done(d, Put(1, 1))) == map[7 := [3]]
  {
    var half, torn := TornDisks();
    RunPair(half, TORN[2..]);
    assert TORN[1..][1..] == TORN[2..];
    RunOnly(Done(EMPTY, TORN[0]), TORN[1..]);
    RunOnly(EMPTY, TORN);
    Pieces();
    assert Done(torn, Put(1, 1)).contents == [[3]];
  }

  // ---------------------------------------------------------------------------------
  // Exactly when a write may begin.

  /** A write of `data` begun now, and `ops` after it, make a hit go wrong. */
  ghost predicate Spoils(d: Disk, w: nat, id: Uuid, data: Bytes, ops: seq<Op>)
    requires Possible(d, Create(w, id, data))
  {
    var d' := Created(d, w, id, data);
    CanRun(d', ops) && RunsApart(d', ops) && !HoldsLastWritten(After(d', ops))
  }

  /** Longer bytes than those of the write under way, put first, show behind them. */
  lemma LongerShowsThrough(d: Disk, w: nat, id: Uuid, v: nat) returns (data: Bytes, ops: seq<Op>)
    requires Orderly(d) && w !in d.writers && v in d.writers && d.writers[v].id == id
    ensures Possible(d, Create(w, id, data)) && Spoils(d, w, id, data, ops)
  {
    var p := d.writers[v];
    assert Owns(d, p);
    data := p.data + [1];
    var d1 := Created(d, w, id, data);
    var d2 := Done(d1, Put(w, |data|));
    assert |d2.contents[p.inode]| == |data|;
    if p.offset == |p.data| {
      var d3 := Done(d2, Rename(v));
      assert id in d3.files && !HoldsLastWritten(d3);
      ops := [Put(w, |data|), Rename(v)];
      RunTwo(d1, Put(w, |data|), Rename(v));
    } else {
      var left := |p.data| - p.offset;
      var d3 := Done(d2, Put(v, left));
      assert |d3.contents[p.inode]| == |data|;
      var d4 := Done(d3, Rename(v));
      assert id in d4.files && !HoldsLastWritten(d4);
      ops := [Put(w, |data|)] + [Put(v, left), Rename(v)];
      RunTwo(d2, Put(v, left), Rename(v));
      RunFrom(d1, Put(w, |data|), [Put(v, left), Rename(v)]);
    }
  }

  /** A write may begin without ever letting a hit go wrong, whatever its bytes, exactly if no other
      write of its id is under way. */
  lemma MayBeginExactlyWhenFree(d: Disk, w: nat, id: Uuid)
    requires Orderly(d) && w !in d.writers
    ensures (forall data: Bytes, ops: seq<Op> :: Possible(d, Create(w, id, data)) ==> !Spoils(d, w, id, data, ops))
       <==> Free(d, id)
  {
    if Free(d, id) {
      forall data: Bytes, ops: seq<Op> | Possible(d, Create(w, id, data)) ensures !Spoils(d, w, id, data, ops) {
        var d' := Created(d, w, id, data);
        if CanRun(d', ops) && RunsApart(d', ops) {
          CreateStaysOrderly(d, w, id, data);
          HitsAreLastWritten(d', ops);
        }
      }
    } else {
      var v :| v in d.writers && d.writers[v].id == id;
      var data, ops := LongerShowsThrough(d, w, id, v);
    }
  }
}

/**
 Bytes on the wire: bounds-checked reading and writing of fixed-size arrays and
 length-prefixed byte strings, as the cursors `Reader` and `Writer` do it, the reader with
 or without a tail of zeros behind its data.
 */
module WireFields {
  import opened Wrappers

  newtype byte = x: int | 0 <= x < 256

  datatype WireError =
    | UnexpectedEof(needed: nat, available: nat)
    | VariableTooLong(len: nat, max: nat)
    | BlockCountMismatch(block: string, expected: nat, found: nat)
    | UnknownMessage

  // ---------------------------------------------------------------------------------
  // Little-endian integers.

  function Pow256(width: nat): (p: nat)
    ensures p >= 1
  {
    if width == 0 then 1 else 256 * Pow256(width - 1)
  }

  function LittleEndian(n: nat, width: nat): (bytes: seq<byte>)
    ensures |bytes| == width
  {
    if width == 0 then [] else [(n % 256) as byte] + LittleEndian(n / 256, width - 1)
  }

  function FromLittleEndian(bytes: seq<byte>): nat {
    if bytes == [] then 0 else bytes[0] as nat + 256 * FromLittleEndian(bytes[1..])
  }

  lemma {:induction false} LittleEndianRoundTrip(n: nat, width: nat)
    requires n < Pow256(width)
    ensures FromLittleEndian(LittleEndian(n, width)) == n
  {
    if width > 0 {
      LittleEndianRoundTrip(n / 256, width - 1);
    }
  }

  lemma TimesMonotone(d: nat, x: nat, y: nat)
    ensures x <= y ==> d * x <= d * y
  {
  }

  lemma QuotientIs(n: nat, d: nat, q: nat, r: nat)
    requires r < d && n == d * q + r
    ensures n / d == q
  {
    TimesMonotone(d, n / d + 1, q);
    TimesMonotone(d, q + 1, n / d);
  }

  /** Dividing step by step is dividing at once. */
  lemma DividesTwice(n: nat, b: nat)
    requires b > 0
    ensures n / 256 / b == n / (256 * b)
  {
    var p, s := n / 256 / b, n / 256 % b;
    assert n / 256 == b * p + s;
    assert 256 * b * p == 256 * (b * p);
    QuotientIs(n, 256 * b, p, 256 * s + n % 256);
  }

  /** The bytes are the digits to the base 256, the lowest first. */
  lemma {:induction false} LittleEndianDigit(n: nat, width: nat, i: nat)
    requires i < width
    ensures LittleEndian(n, width)[i] as nat == n / Pow256(i) % 256
  {
    if i > 0 {
      LittleEndianDigit(n / 256, width - 1, i - 1);
      DividesTwice(n, Pow256(i - 1));
    }
  }

  lemma {:induction false} FromLittleEndianBound(bytes: seq<byte>)
    ensures FromLittleEndian(bytes) < Pow256(|bytes|)
    ensures LittleEndian(FromLittleEndian(bytes), |bytes|) == bytes
  {
    if bytes != [] {
      FromLittleEndianBound(bytes[1..]);
      assert FromLittleEndian(bytes) % 256 == bytes[0] as nat;
      assert FromLittleEndian(bytes) / 256 == FromLittleEndian(bytes[1..]);
    }
  }

  /** Two's complement in `width` bytes. */
  function ToUnsigned(n: int, width: nat): nat
    requires -(Pow256(width) as int) <= n
  {
    if n < 0 then n + Pow256(width) else n
  }

  function FromUnsigned(u: nat, width: nat): int {
    if 2 * u < Pow256(width) then u else u - Pow256(width)
  }

  // ---------------------------------------------------------------------------------
  // The primitive reads and writes.

  /** One primitive transfer: `n` bytes, or a byte string behind a `k`-byte length. */
  datatype Prim = Take(n: nat) | Prefixed(k: nat)

  /** What a writer appended, and the error that stopped it. */
  datatype Wrote = Wrote(bytes: seq<byte>, failure: Option<WireError>) {
    function Then(next: Wrote): Wrote {
      if failure.Some? then this else Wrote(bytes + next.bytes, next.failure)
    }
  }

  lemma ThenAssociates(a: Wrote, b: Wrote, c: Wrote)
    ensures a.Then(b).Then(c) == a.Then(b.Then(c))
  {
    assert (a.bytes + b.bytes) + c.bytes == a.bytes + (b.bytes + c.bytes);
  }

  const WroteNothing := Wrote([], None)

  function EncodePrim(prim: Prim, chunk: seq<byte>): Wrote {
    match prim
    case Take(_) => Wrote(chunk, None)
    case Prefixed(k) =>
      if |chunk| < Pow256(k) then Wrote(LittleEndian(|chunk|, k) + chunk, None)
      else Wrote([], Some(VariableTooLong(|chunk|, Pow256(k) - 1)))
  }

  function EncodePrims(prims: seq<Prim>, chunks: seq<seq<byte>>): Wrote
    requires |chunks| == |prims|
    decreases |prims|, 0
  {
    if prims == [] then WroteNothing else EncodeSome(prims[0], chunks[0], prims[1..], chunks[1..])
  }

  /** At least one transfer; a step of its own, so that a proof can stop unfolding here. */
  function EncodeSome(prim: Prim, chunk: seq<byte>, prims: seq<Prim>, chunks: seq<seq<byte>>): Wrote
    requires |chunks| == |prims|
    decreases |prims|, 1
  {
    EncodePrim(prim, chunk).Then(EncodePrims(prims, chunks))
  }

  lemma EncodeStep(prims: seq<Prim>, chunks: seq<seq<byte>>)
    requires |chunks| == |prims| > 0
    ensures EncodePrims(prims, chunks) == EncodePrim(prims[0], chunks[0]).Then(EncodePrims(prims[1..], chunks[1..]))
  {
    assert EncodePrims(prims, chunks) == EncodeSome(prims[0], chunks[0], prims[1..], chunks[1..]);
  }

  /** A buffer, and whether reads past its end yield zeros. */
  datatype Input = Input(buf: seq<byte>, zeroTail: bool)

  datatype Cursor = Cursor(pos: nat, zeroFilled: nat)

  /** The outcome of a read, with the position it leaves the cursor at. */
  datatype Read<+T> = Done(value: T, cursor: Cursor) | Failed(error: WireError, cursor: Cursor)

  /** The outcome of reading on after `done` has been read. */
  function After<T>(done: seq<T>, r: Read<seq<T>>): Read<seq<T>> {
    match r
    case Done(rest, c) => Done(done + rest, c)
    case Failed(e, c) => Failed(e, c)
  }

  lemma AfterNothing<T>(r: Read<seq<T>>)
    ensures After([], r) == r
  {
    if r.Done? { assert [] + r.value == r.value; }
  }

  lemma AfterOneMore<T>(done: seq<T>, x: T, r: Read<seq<T>>)
    ensures After(done, After([x], r)) == After(done + [x], r)
  {
    if r.Done? { assert done + ([x] + r.value) == (done + [x]) + r.value; }
  }

  function Zeros(n: nat): (z: seq<byte>)
    ensures |z| == n
  {
    seq(n, _ => 0 as byte)
  }

  function TakeArray(input: Input, c: Cursor, n: nat): (r: Read<seq<byte>>)
    requires c.pos <= |input.buf|
    ensures c.pos <= r.cursor.pos <= |input.buf|
    ensures r.Done? ==> |r.value| == n
  {
    var left := |input.buf| - c.pos;
    if n <= left then
      Done(input.buf[c.pos..c.pos + n], Cursor(c.pos + n, c.zeroFilled))
    else if input.zeroTail then
      Done(input.buf[c.pos..] + Zeros(n - left), Cursor(|input.buf|, c.zeroFilled + (n - left)))
    else
      Failed(UnexpectedEof(n, left), c)
  }

  function ReadPrim(input: Input, c: Cursor, prim: Prim): (r: Read<seq<byte>>)
    requires c.pos <= |input.buf|
    ensures c.pos <= r.cursor.pos <= |input.buf|
  {
    match prim
    case Take(n) => TakeArray(input, c, n)
    case Prefixed(k) =>
      match TakeArray(input, c, k)
      case Failed(e, d) => Failed(e, d)
      case Done(prefix, d) => TakeArray(input, d, FromLittleEndian(prefix))
  }

  function ReadPrims(input: Input, c: Cursor, prims: seq<Prim>): (r: Read<seq<seq<byte>>>)
    requires c.pos <= |input.buf|
    ensures c.pos <= r.cursor.pos <= |input.buf|
    ensures r.Done? ==> |r.value| == |prims|
    decreases |prims|, 0
  {
    if prims == [] then Done([], c) else ReadSome(input, c, prims[0], prims[1..])
  }

  /** At least one transfer; a step of its own, so that a proof can stop unfolding here. */
  function ReadSome(input: Input, c: Cursor, prim: Prim, prims: seq<Prim>): (r: Read<seq<seq<byte>>>)
    requires c.pos <= |input.buf|
    ensures c.pos <= r.cursor.pos <= |input.buf|
    ensures r.Done? ==> |r.value| == |prims| + 1
    decreases |prims|, 1
  {
    match ReadPrim(input, c, prim)
    case Failed(e, d) => Failed(e, d)
    case Done(chunk, d) =>
      match ReadPrims(input, d, prims)
      case Failed(e, f) => Failed(e, f)
      case Done(rest, f) => Done([chunk] + rest, f)
  }

  lemma ReadStep(input: Input, c: Cursor, prims: seq<Prim>)
    requires c.pos <= |input.buf| && prims != []
    ensures ReadPrims(input, c, prims)
         == match ReadPrim(input, c, prims[0])
            case Failed(e, d) => Failed(e, d)
            case Done(chunk, d) =>
              match ReadPrims(input, d, prims[1..])
              case Failed(e, f) => Failed(e, f)
              case Done(rest, f) => Done([chunk] + rest, f)
  {
    assert ReadPrims(input, c, prims) == ReadSome(input, c, prims[0], prims[1..]);
  }

  /** The repeat count of a block that may be missing at the end of the data. */
  function VariableBlockCount(input: Input, c: Cursor): (r: (nat, Cursor))
    requires c.pos <= |input.buf|
    ensures c.pos <= r.1.pos <= |input.buf| && r.0 < 256
  {
    if c.pos == |input.buf| then (0, c) else (input.buf[c.pos] as nat, Cursor(c.pos + 1, c.zeroFilled))
  }

  // ---------------------------------------------------------------------------------
  // Reading back what was written.

  /** `bytes` stand at `pos` in `buf`. */
  predicate HasAt(buf: seq<byte>, pos: nat, bytes: seq<byte>) {
    pos + |bytes| <= |buf| && buf[pos..pos + |bytes|] == bytes
  }

  /** `buf` ends in the middle of `bytes`, which start at `pos`. */
  predicate CutAt(buf: seq<byte>, pos: nat, bytes: seq<byte>) {
    pos <= |buf| < pos + |bytes| && buf[pos..] == bytes[..|buf| - pos]
  }

  lemma HasBoth(buf: seq<byte>, pos: nat, a: seq<byte>, b: seq<byte>)
    requires HasAt(buf, pos, a + b)
    ensures HasAt(buf, pos, a) && HasAt(buf, pos + |a|, b)
  {
    var ab := a + b;
    assert buf[pos..pos + |a|] == ab[..|a|] == a;
    assert buf[pos + |a|..pos + |ab|] == ab[|a|..] == b;
  }

  lemma CutInEither(buf: seq<byte>, pos: nat, a: seq<byte>, b: seq<byte>)
    requires CutAt(buf, pos, a + b)
    ensures CutAt(buf, pos, a) || (HasAt(buf, pos, a) && CutAt(buf, pos + |a|, b))
  {
    var ab, n := a + b, |buf| - pos;
    if n < |a| {
      assert buf[pos..] == ab[..n] == a[..n];
    } else {
      assert buf[pos..pos + |a|] == ab[..n][..|a|] == a;
      assert buf[pos + |a|..] == ab[..n][|a|..] == b[..n - |a|];
    }
  }

  predicate Fits(prim: Prim, chunk: seq<byte>) {
    match prim
    case Take(n) => |chunk| == n
    case Prefixed(_) => true
  }

  predicate AllFit(prims: seq<Prim>, chunks: seq<seq<byte>>) {
    |chunks| == |prims| && forall i | 0 <= i < |prims| :: Fits(prims[i], chunks[i])
  }

  lemma ReadBackPrim(input: Input, c: Cursor, prim: Prim, chunk: seq<byte>)
    requires Fits(prim, chunk) && EncodePrim(prim, chunk).failure.None?
    requires HasAt(input.buf, c.pos, EncodePrim(prim, chunk).bytes)
    ensures ReadPrim(input, c, prim) == Done(chunk, Cursor(c.pos + |EncodePrim(prim, chunk).bytes|, c.zeroFilled))
  {
    if prim.Prefixed? {
      HasBoth(input.buf, c.pos, LittleEndian(|chunk|, prim.k), chunk);
      LittleEndianRoundTrip(|chunk|, prim.k);
    }
  }

  /** The first of several transfers, and what is left of the buffer for the others. */
  lemma ReadBackFirst(input: Input, c: Cursor, prims: seq<Prim>, chunks: seq<seq<byte>>) returns (next: Cursor)
    requires prims != [] && AllFit(prims, chunks) && EncodePrims(prims, chunks).failure.None?
    requires HasAt(input.buf, c.pos, EncodePrims(prims, chunks).bytes)
    ensures AllFit(prims[1..], chunks[1..]) && EncodePrims(prims[1..], chunks[1..]).failure.None?
    ensures HasAt(input.buf, next.pos, EncodePrims(prims[1..], chunks[1..]).bytes)
    ensures ReadPrim(input, c, prims[0]) == Done(chunks[0], next)
    ensures next.pos + |EncodePrims(prims[1..], chunks[1..]).bytes| == c.pos + |EncodePrims(prims, chunks).bytes|
    ensures next.zeroFilled == c.zeroFilled
  {
    var first, rest := EncodePrim(prims[0], chunks[0]), EncodePrims(prims[1..], chunks[1..]);
    assert first.failure.None? && rest.failure.None?;
    HasBoth(input.buf, c.pos, first.bytes, rest.bytes);
    ReadBackPrim(input, c, prims[0], chunks[0]);
    next := Cursor(c.pos + |first.bytes|, c.zeroFilled);
  }

  lemma {:induction false} ReadBackPrims(input: Input, c: Cursor, prims: seq<Prim>, chunks: seq<seq<byte>>)
    requires AllFit(prims, chunks) && EncodePrims(prims, chunks).failure.None?
    requires HasAt(input.buf, c.pos, EncodePrims(prims, chunks).bytes)
    ensures ReadPrims(input, c, prims) == Done(chunks, Cursor(c.pos + |EncodePrims(prims, chunks).bytes|, c.zeroFilled))
    decreases |prims|
  {
    if prims != [] {
      var next := ReadBackFirst(input, c, prims, chunks);
      ReadBackPrims(input, next, prims[1..], chunks[1..]);
      assert chunks == [chunks[0]] + chunks[1..];
    }
  }

  lemma CutPrim(input: Input, c: Cursor, prim: Prim, chunk: seq<byte>)
    requires !input.zeroTail && Fits(prim, chunk) && EncodePrim(prim, chunk).failure.None?
    requires CutAt(input.buf, c.pos, EncodePrim(prim, chunk).bytes)
    ensures ReadPrim(input, c, prim).Failed?
  {
    if prim.Prefixed? {
      CutInEither(input.buf, c.pos, LittleEndian(|chunk|, prim.k), chunk);
      LittleEndianRoundTrip(|chunk|, prim.k);
    }
  }

  lemma {:induction false} CutPrims(input: Input, c: Cursor, prims: seq<Prim>, chunks: seq<seq<byte>>)
    requires !input.zeroTail && AllFit(prims, chunks) && EncodePrims(prims, chunks).failure.None?
    requires CutAt(input.buf, c.pos, EncodePrims(prims, chunks).bytes)
    ensures ReadPrims(input, c, prims).Failed?
    decreases |prims|
  {
    if prims != [] {
      var first, rest := EncodePrim(prims[0], chunks[0]), EncodePrims(prims[1..], chunks[1..]);
      assert first.failure.None? && rest.failure.None?;
      CutInEither(input.buf, c.pos, first.bytes, rest.bytes);
      if CutAt(input.buf, c.pos, first.bytes) {
        CutPrim(input, c, prims[0], chunks[0]);
      } else {
        ReadBackPrim(input, c, prims[0], chunks[0]);
        CutPrims(input, Cursor(c.pos + |first.bytes|, c.zeroFilled), prims[1..], chunks[1..]);
      }
    }
  }

  // ---------------------------------------------------------------------------------
  // A zero-tailed reader reads the buffer as if zeros followed it for ever.

  /** `d` in the zero-extended buffer corresponds to `c` in `buf`. */
  predicate Tracks(buf: seq<byte>, c: Cursor, d: Cursor) {
    c.pos == if d.pos <= |buf| then d.pos else |buf|
  }

  lemma ZeroTailTake(buf: seq<byte>, k: nat, c: Cursor, d: Cursor, n: nat)
    requires Tracks(buf, c, d) && d.pos <= |buf| + k
    requires TakeArray(Input(buf + Zeros(k), false), d, n).Done?
    ensures var strict := TakeArray(Input(buf + Zeros(k), false), d, n);
            var padded := TakeArray(Input(buf, true), c, n);
            padded.Done? && padded.value == strict.value && Tracks(buf, padded.cursor, strict.cursor)
  {
    var strict := TakeArray(Input(buf + Zeros(k), false), d, n);
    var padded := TakeArray(Input(buf, true), c, n);
    forall i | 0 <= i < n ensures padded.value[i] == strict.value[i] {
      assert strict.value[i] == (buf + Zeros(k))[d.pos + i];
    }
    assert padded.value == strict.value;
  }

  lemma ZeroTailPrim(buf: seq<byte>, k: nat, c: Cursor, d: Cursor, prim: Prim)
    requires Tracks(buf, c, d) && d.pos <= |buf| + k
    requires ReadPrim(Input(buf + Zeros(k), false), d, prim).Done?
    ensures var strict := ReadPrim(Input(buf + Zeros(k), false), d, prim);
            var padded := ReadPrim(Input(buf, true), c, prim);
            padded.Done? && padded.value == strict.value && Tracks(buf, padded.cursor, strict.cursor)
  {
    match prim
    case Take(n) => ZeroTailTake(buf, k, c, d, n);
    case Prefixed(w) =>
      ZeroTailTake(buf, k, c, d, w);
      var prefix := TakeArray(Input(buf + Zeros(k), false), d, w);
      ZeroTailTake(buf, k, TakeArray(Input(buf, true), c, w).cursor, prefix.cursor, FromLittleEndian(prefix.value));
  }

  lemma {:induction false} ZeroTailPrims(buf: seq<byte>, k: nat, c: Cursor, d: Cursor, prims: seq<Prim>)
    requires Tracks(buf, c, d) && d.pos <= |buf| + k
    requires ReadPrims(Input(buf + Zeros(k), false), d, prims).Done?
    ensures var strict := ReadPrims(Input(buf + Zeros(k), false), d, prims);
            var padded := ReadPrims(Input(buf, true), c, prims);
            padded.Done? && padded.value == strict.value && Tracks(buf, padded.cursor, strict.cursor)
    decreases |prims|
  {
    if prims != [] {
      ZeroTailPrim(buf, k, c, d, prims[0]);
      var strict := ReadPrim(Input(buf + Zeros(k), false), d, prims[0]);
      var padded := ReadPrim(Input(buf, true), c, prims[0]);
      ZeroTailPrims(buf, k, padded.cursor, strict.cursor, prims[1..]);
    }
  }

  lemma {:induction false} ZeroTailNeverFails(buf: seq<byte>, c: Cursor, prims: seq<Prim>)
    requires c.pos <= |buf|
    ensures ReadPrims(Input(buf, true), c, prims).Done?
    decreases |prims|
  {
    if prims != [] {
      ZeroTailNeverFails(buf, ReadPrim(Input(buf, true), c, prims[0]).cursor, prims[1..]);
    }
  }

  /** What was read, by whichever reader, fits what was to be read. */
  lemma {:induction false} ReadFits(input: Input, c: Cursor, prims: seq<Prim>)
    requires c.pos <= |input.buf| && ReadPrims(input, c, prims).Done?
    ensures AllFit(prims, ReadPrims(input, c, prims).value)
    ensures EncodePrims(prims, ReadPrims(input, c, prims).value).failure.None?
    decreases |prims|
  {
    if prims != [] {
      var first := ReadPrim(input, c, prims[0]);
      if prims[0].Prefixed? {
        FromLittleEndianBound(TakeArray(input, c, prims[0].k).value);
      }
      ReadFits(input, first.cursor, prims[1..]);
      var all := ReadPrims(input, c, prims).value;
      assert all[1..] == ReadPrims(input, first.cursor, prims[1..]).value;
    }
  }

  // ---------------------------------------------------------------------------------
  // The cursors themselves.

  class Writer {
    var buf: seq<byte>

    constructor ()
      ensures buf == []
    {
      buf := [];
    }

    method PutChunk(prim: Prim, chunk: seq<byte>) returns (failure: Option<WireError>)
      modifies this
      ensures buf == old(buf) + EncodePrim(prim, chunk).bytes
      ensures failure == EncodePrim(prim, chunk).failure
    {
      if prim.Prefixed? {
        if |chunk| >= Pow256(prim.k) {
          return Some(VariableTooLong(|chunk|, Pow256(prim.k) - 1));
        }
        buf := buf + LittleEndian(|chunk|, prim.k);
      }
      buf := buf + chunk;
      failure := None;
    }

    method PutChunks(prims: seq<Prim>, chunks: seq<seq<byte>>) returns (failure: Option<WireError>)
      requires |chunks| == |prims|
      modifies this
      ensures buf == old(buf) + EncodePrims(prims, chunks).bytes
      ensures failure == EncodePrims(prims, chunks).failure
    {
      var i := 0;
      while i < |prims|
        invariant 0 <= i <= |prims|
        invariant Wrote(old(buf), None).Then(EncodePrims(prims, chunks))
                  == Wrote(buf, None).Then(EncodePrims(prims[i..], chunks[i..]))
      {
        ThenAssociates(Wrote(buf, None), EncodePrim(prims[i], chunks[i]), EncodePrims(prims[i + 1..], chunks[i + 1..]));
        assert prims[i..][1..] == prims[i + 1..] && chunks[i..][1..] == chunks[i + 1..];
        failure := PutChunk(prims[i], chunks[i]);
        if failure.Some? {
          return;
        }
        i := i + 1;
      }
      failure := None;
    }
  }

  class Reader {
    const buf: seq<byte>
    const zeroTail: bool
    var pos: nat
    var zeroFilled: nat

    ghost predicate Valid()
      reads this
    {
      pos <= |buf|
    }

    function Source(): Input { Input(buf, zeroTail) }

    function At(): Cursor
      reads this
    {
      Cursor(pos, zeroFilled)
    }

    /** Whether `r` and the reader's state are what `read` says. */
    ghost predicate Reports<T>(r: Result<T, WireError>, read: Read<T>)
      reads this
    {
      && Valid() && At() == read.cursor
      && r == match read case Done(value, _) => Ok(value) case Failed(error, _) => Err(error)
    }

    constructor (buf: seq<byte>, zeroTail: bool)
      ensures Valid() && this.buf == buf && this.zeroTail == zeroTail && At() == Cursor(0, 0)
    {
      this.buf, this.zeroTail := buf, zeroTail;
      pos, zeroFilled := 0, 0;
    }

    method Take(n: nat) returns (r: Result<seq<byte>, WireError>)
      requires Valid()
      modifies this
      ensures Reports(r, TakeArray(Source(), old(At()), n))
    {
      if n <= |buf| - pos {
        r := Ok(buf[pos..pos + n]);
        pos := pos + n;
      } else if zeroTail {
        var missing := n - (|buf| - pos);
        r := Ok(buf[pos..] + Zeros(missing));
        zeroFilled := zeroFilled + missing;
        pos := |buf|;
      } else {
        r := Err(UnexpectedEof(n, |buf| - pos));
      }
    }

    method TakeChunk(prim: Prim) returns (r: Result<seq<byte>, WireError>)
      requires Valid()
      modifies this
      ensures Reports(r, ReadPrim(Source(), old(At()), prim))
    {
      match prim
      case Take(n) =>
        r := Take(n);
      case Prefixed(k) =>
        r := Take(k);
        if r.Ok? {
          r := Take(FromLittleEndian(r.value));
        }
    }

    method TakeChunks(prims: seq<Prim>) returns (r: Result<seq<seq<byte>>, WireError>)
      requires Valid()
      modifies this
      ensures Reports(r, ReadPrims(Source(), old(At()), prims))
    {
      var chunks: seq<seq<byte>> := [];
      var i := 0;
      assert prims[0..] == prims;
      AfterNothing(ReadPrims(Source(), At(), prims));
      while i < |prims|
        invariant Valid() && 0 <= i <= |prims|
        invariant ReadPrims(Source(), old(At()), prims) == After(chunks, ReadPrims(Source(), At(), prims[i..]))
      {
        assert prims[i..][1..] == prims[i + 1..];
        var chunk := TakeChunk(prims[i]);
        if chunk.Err? {
          return Err(chunk.error);
        }
        AfterOneMore(chunks, chunk.value, ReadPrims(Source(), At(), prims[i + 1..]));
        chunks := chunks + [chunk.value];
        i := i + 1;
      }
      assert chunks + [] == chunks;
      r := Ok(chunks);
    }

    method BlockCount() returns (count: nat)
      requires Valid()
      modifies this
      ensures Valid() && (count, At()) == VariableBlockCount(Source(), old(At()))
    {
      if pos == |buf| {
        return 0;
      }
      count := buf[pos] as nat;
      pos := pos + 1;
    }
  }
}

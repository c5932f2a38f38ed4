/** What each field type is on the wire, byte for byte, and in which order fields, items and blocks come. */
module WireBytes {
  import opened WireFields
  import opened WireCodec

  /** `n` stands at `at`, in `width` bytes, the lowest first. */
  predicate NumberAt(bytes: seq<byte>, at: nat, width: nat, n: nat) {
    && at + width <= |bytes| && n < Pow256(width)
    && forall i | 0 <= i < width :: bytes[at + i] as nat == n / Pow256(i) % 256
  }

  predicate SpellsUnsigned(v: Value, width: nat, bytes: seq<byte>) {
    v.Unsigned? && |bytes| == width && NumberAt(bytes, 0, width, v.n)
  }

  /** Two's complement. */
  predicate SpellsSigned(v: Value, width: nat, bytes: seq<byte>) {
    && v.Signed? && |bytes| == width && -(Pow256(width) as int) <= 2 * v.i < Pow256(width)
    && NumberAt(bytes, 0, width, if v.i >= 0 then v.i else v.i + Pow256(width))
  }

  predicate SpellsFloats(v: Value, width: nat, places: seq<nat>, size: nat, bytes: seq<byte>) {
    && v.Floats? && |v.bits| == |places| && |bytes| == size
    && forall k | 0 <= k < |places| :: NumberAt(bytes, places[k], width, v.bits[k])
  }

  predicate SpellsRotation(v: Value, bytes: seq<byte>) {
    && v.Rotation? && |bytes| == 12
    && NumberAt(bytes, 0, 4, v.x) && NumberAt(bytes, 4, 4, v.y) && NumberAt(bytes, 8, 4, v.z)
  }

  predicate SpellsRaw(v: Value, size: nat, bytes: seq<byte>) { v.Bytes? && |bytes| == size && bytes == v.data }

  predicate SpellsPrefixed(v: Value, prefix: nat, bytes: seq<byte>) {
    v.Bytes? && |bytes| == prefix + |v.data| && NumberAt(bytes, 0, prefix, |v.data|) && bytes[prefix..] == v.data
  }

  /** `bytes` are a field of type `ty` that holds `v`; the numbers of a vector come in the order x, y, z. */
  predicate Spells(ty: FieldType, v: Value, bytes: seq<byte>) {
    match ty
    case U8 => SpellsUnsigned(v, 1, bytes)
    case U16 => SpellsUnsigned(v, 2, bytes)
    case U32 => SpellsUnsigned(v, 4, bytes)
    case U64 => SpellsUnsigned(v, 8, bytes)
    case S8 => SpellsSigned(v, 1, bytes)
    case S16 => SpellsSigned(v, 2, bytes)
    case S32 => SpellsSigned(v, 4, bytes)
    case F32 => SpellsFloats(v, 4, [0], 4, bytes)
    case F64 => SpellsFloats(v, 8, [0], 8, bytes)
    case Uuid => SpellsRaw(v, 16, bytes)
    case Vector3 => SpellsFloats(v, 4, [0, 4, 8], 12, bytes)
    case Vector3d => SpellsFloats(v, 8, [0, 8, 16], 24, bytes)
    case Vector4 => SpellsFloats(v, 4, [0, 4, 8, 12], 16, bytes)
    case Quaternion => SpellsRotation(v, bytes)
    case Bool => v.Flag? && bytes == [if v.on then 1 else 0]
    case IpAddr => SpellsRaw(v, 4, bytes)
    case IpPort => SpellsUnsigned(v, 2, bytes)
    case VariableLength(k) => SpellsPrefixed(v, if k == 2 then 2 else 1, bytes)
    case Fixed(n) => SpellsRaw(v, n, bytes)
  }

  // ---------------------------------------------------------------------------------
  // Writing.

  lemma NumberIs(bytes: seq<byte>, at: nat, width: nat, n: nat)
    requires at + width <= |bytes| && n < Pow256(width) && bytes[at..at + width] == LittleEndian(n, width)
    ensures NumberAt(bytes, at, width, n)
  {
    forall i | 0 <= i < width ensures bytes[at + i] as nat == n / Pow256(i) % 256 {
      LittleEndianDigit(n, width, i);
      assert bytes[at..at + width][i] == bytes[at + i];
    }
  }

  lemma EncodeOne(prim: Prim, chunk: seq<byte>)
    ensures EncodePrims([prim], [chunk]).failure == EncodePrim(prim, chunk).failure
    ensures EncodePrim(prim, chunk).failure.None? ==>
              EncodePrims([prim], [chunk]).bytes == EncodePrim(prim, chunk).bytes
  {
    EncodeStep([prim], [chunk]);
    assert EncodePrims([prim][1..], [chunk][1..]) == WroteNothing;
  }

  /** Arrays of one width stand one behind the other. */
  lemma {:induction false} EncodeRow(width: nat, chunks: seq<seq<byte>>, prims: seq<Prim>, k: nat, at: nat)
    requires prims == Repeat(Take(width), |chunks|) && AllFit(prims, chunks) && k < |chunks| && at == RowPlace(width, k)
    ensures var w := EncodePrims(prims, chunks);
            w.failure.None? && |w.bytes| == RowPlace(width, |chunks|) && at + width <= |w.bytes|
            && w.bytes[at..at + width] == chunks[k]
    decreases |chunks|
  {
    EncodeStep(prims, chunks);
    var rest := EncodePrims(prims[1..], chunks[1..]);
    assert prims[1..] == Repeat(Take(width), |chunks[1..]|);
    if |chunks| == 1 {
      assert rest == WroteNothing;
    } else if k == 0 {
      EncodeRow(width, chunks[1..], prims[1..], 0, 0);
    } else {
      EncodeRow(width, chunks[1..], prims[1..], k - 1, RowPlace(width, k - 1));
      assert (chunks[0] + rest.bytes)[at..at + width] == rest.bytes[at - width..at];
    }
  }

  function RowPlace(width: nat, k: nat): nat { if k == 0 then 0 else width + RowPlace(width, k - 1) }

  lemma UnsignedIsWritten(width: nat, v: Value)
    requires Typed(UnsignedWord(width), v)
    ensures SpellsUnsigned(v, width, EncodePrims([Take(width)], Chunks(UnsignedWord(width), v)).bytes)
  {
    EncodeOne(Take(width), LittleEndian(v.n, width));
    NumberIs(LittleEndian(v.n, width), 0, width, v.n);
  }

  lemma SignedIsWritten(width: nat, v: Value)
    requires Typed(SignedWord(width), v)
    ensures SpellsSigned(v, width, EncodePrims([Take(width)], Chunks(SignedWord(width), v)).bytes)
  {
    var n := if v.i >= 0 then v.i else v.i + Pow256(width);
    EncodeOne(Take(width), LittleEndian(n, width));
    NumberIs(LittleEndian(n, width), 0, width, n);
  }

  lemma FloatsAreWritten(width: nat, count: nat, v: Value, places: seq<nat>, size: nat)
    requires Typed(FloatWords(width, count), v) && |places| == count > 0 && size == RowPlace(width, count)
    requires forall k | 0 <= k < count :: places[k] == RowPlace(width, k)
    ensures SpellsFloats(v, width, places, size,
                         EncodePrims(Repeat(Take(width), count), Chunks(FloatWords(width, count), v)).bytes)
  {
    var prims, chunks := Repeat(Take(width), count), Chunks(FloatWords(width, count), v);
    var bytes := EncodePrims(prims, chunks).bytes;
    EncodeRow(width, chunks, prims, 0, 0);
    forall k | 0 <= k < count ensures NumberAt(bytes, places[k], width, v.bits[k]) {
      EncodeRow(width, chunks, prims, k, places[k]);
      NumberIs(bytes, places[k], width, v.bits[k]);
    }
  }

  lemma RotationIsWritten(v: Value)
    requires Typed(RotationWords, v)
    ensures SpellsRotation(v, EncodePrims(Repeat(Take(4), 3), Chunks(RotationWords, v)).bytes)
  {
    var prims, chunks := Repeat(Take(4), 3), Chunks(RotationWords, v);
    var bytes := EncodePrims(prims, chunks).bytes;
    EncodeRow(4, chunks, prims, 0, 0);
    EncodeRow(4, chunks, prims, 1, 4);
    EncodeRow(4, chunks, prims, 2, 8);
    NumberIs(bytes, 0, 4, v.x);
    NumberIs(bytes, 4, 4, v.y);
    NumberIs(bytes, 8, 4, v.z);
  }

  lemma RawIsWritten(size: nat, v: Value)
    requires Typed(RawBytes(size), v)
    ensures SpellsRaw(v, size, EncodePrims([Take(size)], Chunks(RawBytes(size), v)).bytes)
  {
    EncodeOne(Take(size), v.data);
  }

  lemma PrefixedIsWritten(prefix: nat, v: Value)
    requires Typed(PrefixedBytes(prefix), v)
    ensures var w := EncodePrims([Prefixed(prefix)], Chunks(PrefixedBytes(prefix), v));
            w.failure.None? ==> SpellsPrefixed(v, prefix, w.bytes)
  {
    EncodeOne(Prefixed(prefix), v.data);
    if |v.data| < Pow256(prefix) {
      var bytes := LittleEndian(|v.data|, prefix) + v.data;
      assert bytes[0..prefix] == LittleEndian(|v.data|, prefix) && bytes[prefix..] == v.data;
      NumberIs(bytes, 0, prefix, |v.data|);
    }
  }

  lemma FlagIsWritten(v: Value)
    requires Typed(FlagByte, v)
    ensures EncodePrims([Take(1)], Chunks(FlagByte, v)).bytes == [if v.on then 1 else 0]
  {
    EncodeOne(Take(1), [if v.on then 1 else 0]);
  }

  lemma RowPlaces()
    ensures RowPlace(4, 1) == 4 && RowPlace(4, 2) == 8 && RowPlace(4, 3) == 12 && RowPlace(4, 4) == 16
    ensures RowPlace(8, 1) == 8 && RowPlace(8, 2) == 16 && RowPlace(8, 3) == 24
  {
    assert RowPlace(4, 0) == 0 && RowPlace(8, 0) == 0;
  }

  /** What is written for a field, by its type. */
  lemma FieldIsWritten(ty: FieldType, v: Value)
    requires Typed(LayoutOf(ty), v)
    ensures EncodeField(ty, v).failure.None? ==> Spells(ty, v, EncodeField(ty, v).bytes)
  {
    RowPlaces();
    match ty
    case U8 => UnsignedIsWritten(1, v);
    case U16 => UnsignedIsWritten(2, v);
    case U32 => UnsignedIsWritten(4, v);
    case U64 => UnsignedIsWritten(8, v);
    case IpPort => UnsignedIsWritten(2, v);
    case S8 => SignedIsWritten(1, v);
    case S16 => SignedIsWritten(2, v);
    case S32 => SignedIsWritten(4, v);
    case F32 => FloatsAreWritten(4, 1, v, [0], 4);
    case F64 => FloatsAreWritten(8, 1, v, [0], 8);
    case Vector3 => FloatsAreWritten(4, 3, v, [0, 4, 8], 12);
    case Vector3d => FloatsAreWritten(8, 3, v, [0, 8, 16], 24);
    case Vector4 => FloatsAreWritten(4, 4, v, [0, 4, 8, 12], 16);
    case Quaternion => RotationIsWritten(v);
    case Bool => FlagIsWritten(v);
    case Uuid => RawIsWritten(16, v);
    case IpAddr => RawIsWritten(4, v);
    case Fixed(n) => RawIsWritten(n, v);
    case VariableLength(k) => PrefixedIsWritten(if k == 2 then 2 else 1, v);
  }

  // ---------------------------------------------------------------------------------
  // Reading.

  /** The `n` bytes of the data from `pos` on, followed by zeros for ever. */
  function Ahead(input: Input, pos: nat, n: nat): (bytes: seq<byte>)
    ensures |bytes| == n
  {
    seq(n, i requires 0 <= i < n => if pos + i < |input.buf| then input.buf[pos + i] else 0)
  }

  /** Where a reader stands that has read on from `pos` past the data. */
  function Stop(input: Input, pos: nat): nat { if pos <= |input.buf| then pos else |input.buf| }

  /** What a field of type `ty` in `bytes` says: any byte but zero is true, and the fourth part of a rotation is
      rebuilt. */
  predicate Says(ty: FieldType, bytes: seq<byte>, v: Value, rebuild: Rebuild) {
    if ty.Bool? then |bytes| == 1 && v == Flag(bytes[0] != 0)
    else Spells(ty, v, bytes) && (ty.Quaternion? ==> v.s == rebuild(v.x, v.y, v.z))
  }

  lemma TakeGives(input: Input, c: Cursor, at: nat, n: nat)
    requires c.pos == Stop(input, at) && TakeArray(input, c, n).Done?
    ensures TakeArray(input, c, n).value == Ahead(input, at, n)
    ensures TakeArray(input, c, n).cursor.pos == Stop(input, at + n)
  {
    forall i | 0 <= i < n ensures TakeArray(input, c, n).value[i] == Ahead(input, at, n)[i] {}
  }

  /** Arrays of one width are read one behind the other. */
  lemma {:induction false} ReadRow(input: Input, c: Cursor, at: nat, width: nat, prims: seq<Prim>, k: nat)
    requires c.pos == Stop(input, at) && prims == Repeat(Take(width), |prims|) && k < |prims|
    requires ReadPrims(input, c, prims).Done?
    ensures ReadPrims(input, c, prims).value[k] == Ahead(input, at + RowPlace(width, k), width)
    ensures ReadPrims(input, c, prims).cursor.pos == Stop(input, at + RowPlace(width, |prims|))
    decreases |prims|
  {
    ReadStep(input, c, prims);
    TakeGives(input, c, at, width);
    assert prims[1..] == Repeat(Take(width), |prims| - 1);
    var next := TakeArray(input, c, width).cursor;
    if |prims| == 1 {
      assert ReadPrims(input, next, prims[1..]) == Done([], next);
    } else {
      ReadRow(input, next, at + width, width, prims[1..], if k == 0 then 0 else k - 1);
    }
  }

  lemma NumberRead(bytes: seq<byte>, at: nat, width: nat)
    requires at + width <= |bytes|
    ensures NumberAt(bytes, at, width, FromLittleEndian(bytes[at..at + width]))
  {
    FromLittleEndianBound(bytes[at..at + width]);
    NumberIs(bytes, at, width, FromLittleEndian(bytes[at..at + width]));
  }

  lemma WholeNumberRead(bytes: seq<byte>)
    ensures NumberAt(bytes, 0, |bytes|, FromLittleEndian(bytes))
  {
    assert bytes[0..0 + |bytes|] == bytes;
    NumberRead(bytes, 0, |bytes|);
  }

  lemma PartAhead(input: Input, pos: nat, n: nat, at: nat, width: nat)
    requires at + width <= n
    ensures Ahead(input, pos, n)[at..at + width] == Ahead(input, pos + at, width)
  {
  }

  lemma FloatsAreRead(input: Input, c: Cursor, width: nat, count: nat, places: seq<nat>, size: nat, rebuild: Rebuild)
    requires c.pos <= |input.buf| && |places| == count > 0 && size == RowPlace(width, count)
    requires forall k | 0 <= k < count :: places[k] == RowPlace(width, k) && places[k] + width <= size
    requires ReadPrims(input, c, Repeat(Take(width), count)).Done?
    ensures var r := ReadPrims(input, c, Repeat(Take(width), count));
            && AllFit(Prims(FloatWords(width, count)), r.value)
            && SpellsFloats(Build(FloatWords(width, count), r.value, rebuild), width, places, size,
                            Ahead(input, c.pos, size))
            && r.cursor.pos == Stop(input, c.pos + size)
  {
    var prims := Repeat(Take(width), count);
    var r, bytes := ReadPrims(input, c, prims), Ahead(input, c.pos, size);
    ReadFits(input, c, prims);
    ReadRow(input, c, c.pos, width, prims, 0);
    var v := Build(FloatWords(width, count), r.value, rebuild);
    forall k | 0 <= k < count ensures NumberAt(bytes, places[k], width, v.bits[k]) {
      ReadRow(input, c, c.pos, width, prims, k);
      PartAhead(input, c.pos, size, places[k], width);
      NumberRead(bytes, places[k], width);
    }
  }

  lemma RotationSays(a: seq<byte>, b: seq<byte>, c: seq<byte>, bytes: seq<byte>, rebuild: Rebuild)
    requires |bytes| == 12 && bytes[0..4] == a && bytes[4..8] == b && bytes[8..12] == c
    ensures var x, y, z := FromLittleEndian(a), FromLittleEndian(b), FromLittleEndian(c);
            SpellsRotation(Rotation(x, y, z, rebuild(x, y, z)), bytes)
  {
    NumberRead(bytes, 0, 4);
    NumberRead(bytes, 4, 4);
    NumberRead(bytes, 8, 4);
  }

  lemma ThreeAreRead(input: Input, c: Cursor, prims: seq<Prim>)
    requires c.pos <= |input.buf| && prims == Repeat(Take(4), 3) && ReadPrims(input, c, prims).Done?
    ensures var r, bytes := ReadPrims(input, c, prims), Ahead(input, c.pos, 12);
            r.value == [bytes[0..4], bytes[4..8], bytes[8..12]] && r.cursor.pos == Stop(input, c.pos + 12)
  {
    RowPlaces();
    ReadRow(input, c, c.pos, 4, prims, 0);
    ReadRow(input, c, c.pos, 4, prims, 1);
    ReadRow(input, c, c.pos, 4, prims, 2);
    PartAhead(input, c.pos, 12, 0, 4);
    PartAhead(input, c.pos, 12, 4, 4);
    PartAhead(input, c.pos, 12, 8, 4);
  }

  lemma RotationIsRead(input: Input, c: Cursor, rebuild: Rebuild)
    requires c.pos <= |input.buf| && ReadField(input, c, Quaternion, rebuild).Done?
    ensures var r := ReadField(input, c, Quaternion, rebuild);
            Says(Quaternion, Ahead(input, c.pos, 12), r.value, rebuild) && r.cursor.pos == Stop(input, c.pos + 12)
  {
    var bytes := Ahead(input, c.pos, 12);
    ThreeAreRead(input, c, Repeat(Take(4), 3));
    RotationSays(bytes[0..4], bytes[4..8], bytes[8..12], bytes, rebuild);
  }

  lemma OneIsRead(input: Input, c: Cursor, n: nat)
    requires c.pos <= |input.buf| && ReadPrims(input, c, [Take(n)]).Done?
    ensures ReadPrims(input, c, [Take(n)]).value == [Ahead(input, c.pos, n)]
    ensures ReadPrims(input, c, [Take(n)]).cursor.pos == Stop(input, c.pos + n)
  {
    ReadStep(input, c, [Take(n)]);
    TakeGives(input, c, c.pos, n);
    var next := TakeArray(input, c, n).cursor;
    assert ReadPrims(input, next, [Take(n)][1..]) == Done([], next);
  }

  lemma PrefixedIsRead(input: Input, c: Cursor, prefix: nat) returns (n: nat)
    requires c.pos <= |input.buf| && ReadPrims(input, c, [Prefixed(prefix)]).Done?
    ensures var r := ReadPrims(input, c, [Prefixed(prefix)]);
            && |r.value| == 1 && SpellsPrefixed(Bytes(r.value[0]), prefix, Ahead(input, c.pos, n))
            && r.cursor.pos == Stop(input, c.pos + n)
  {
    ReadStep(input, c, [Prefixed(prefix)]);
    TakeGives(input, c, c.pos, prefix);
    var head := TakeArray(input, c, prefix);
    var length := FromLittleEndian(head.value);
    TakeGives(input, head.cursor, c.pos + prefix, length);
    n := prefix + length;
    PartAhead(input, c.pos, n, 0, prefix);
    PartAhead(input, c.pos, n, prefix, length);
    NumberRead(Ahead(input, c.pos, n), 0, prefix);
    var next := TakeArray(input, head.cursor, length).cursor;
    assert ReadPrims(input, next, [Prefixed(prefix)][1..]) == Done([], next);
  }

  lemma UnsignedSays(bytes: seq<byte>)
    ensures SpellsUnsigned(Unsigned(FromLittleEndian(bytes)), |bytes|, bytes)
  {
    WholeNumberRead(bytes);
  }

  lemma SignedSays(bytes: seq<byte>)
    requires bytes != []
    ensures SpellsSigned(Signed(FromUnsigned(FromLittleEndian(bytes), |bytes|)), |bytes|, bytes)
  {
    WholeNumberRead(bytes);
  }

  /** `r` is a field of `n` bytes at `c`, and says what they say. */
  predicate ReadsAs(input: Input, c: Cursor, ty: FieldType, rebuild: Rebuild, n: nat, r: Read<Value>) {
    r.Done? && Says(ty, Ahead(input, c.pos, n), r.value, rebuild) && r.cursor.pos == Stop(input, c.pos + n)
  }

  lemma UnsignedIsRead(input: Input, c: Cursor, ty: FieldType, rebuild: Rebuild) returns (n: nat)
    requires ty in {U8, U16, U32, U64, IpPort}
    requires c.pos <= |input.buf| && ReadField(input, c, ty, rebuild).Done?
    ensures ReadsAs(input, c, ty, rebuild, n, ReadField(input, c, ty, rebuild))
  {
    n := LayoutOf(ty).width;
    OneIsRead(input, c, n);
    UnsignedSays(Ahead(input, c.pos, n));
  }

  lemma SignedIsRead(input: Input, c: Cursor, ty: FieldType, rebuild: Rebuild) returns (n: nat)
    requires ty in {S8, S16, S32}
    requires c.pos <= |input.buf| && ReadField(input, c, ty, rebuild).Done?
    ensures ReadsAs(input, c, ty, rebuild, n, ReadField(input, c, ty, rebuild))
  {
    n := LayoutOf(ty).width;
    OneIsRead(input, c, n);
    SignedSays(Ahead(input, c.pos, n));
  }

  lemma RawIsRead(input: Input, c: Cursor, ty: FieldType, rebuild: Rebuild) returns (n: nat)
    requires ty in {Uuid, IpAddr, Bool} || ty.Fixed?
    requires c.pos <= |input.buf| && ReadField(input, c, ty, rebuild).Done?
    ensures ReadsAs(input, c, ty, rebuild, n, ReadField(input, c, ty, rebuild))
  {
    n := if ty.Bool? then 1 else LayoutOf(ty).n;
    OneIsRead(input, c, n);
  }

  lemma VectorIsRead(input: Input, c: Cursor, ty: FieldType, rebuild: Rebuild) returns (n: nat)
    requires ty in {F32, F64, Vector3, Vector3d, Vector4}
    requires c.pos <= |input.buf| && ReadField(input, c, ty, rebuild).Done?
    ensures ReadsAs(input, c, ty, rebuild, n, ReadField(input, c, ty, rebuild))
  {
    RowPlaces();
    match ty
    case F32 => n := 4; FloatsAreRead(input, c, 4, 1, [0], 4, rebuild);
    case F64 => n := 8; FloatsAreRead(input, c, 8, 1, [0], 8, rebuild);
    case Vector3 => n := 12; FloatsAreRead(input, c, 4, 3, [0, 4, 8], 12, rebuild);
    case Vector3d => n := 24; FloatsAreRead(input, c, 8, 3, [0, 8, 16], 24, rebuild);
    case Vector4 => n := 16; FloatsAreRead(input, c, 4, 4, [0, 4, 8, 12], 16, rebuild);
  }

  /** What is read for a field is what its bytes say, for any bytes, with zeros behind the data for a zero-tailed
      reader. */
  lemma FieldIsRead(input: Input, c: Cursor, ty: FieldType, rebuild: Rebuild) returns (n: nat)
    requires c.pos <= |input.buf| && ReadField(input, c, ty, rebuild).Done?
    ensures ReadsAs(input, c, ty, rebuild, n, ReadField(input, c, ty, rebuild))
  {
    if ty in {U8, U16, U32, U64, IpPort} {
      n := UnsignedIsRead(input, c, ty, rebuild);
    } else if ty in {S8, S16, S32} {
      n := SignedIsRead(input, c, ty, rebuild);
    } else if ty in {F32, F64, Vector3, Vector3d, Vector4} {
      n := VectorIsRead(input, c, ty, rebuild);
    } else if ty.Quaternion? {
      n := 12;
      RotationIsRead(input, c, rebuild);
    } else if ty.VariableLength? {
      n := PrefixedIsRead(input, c, if ty.lengthBytes == 2 then 2 else 1);
    } else {
      n := RawIsRead(input, c, ty, rebuild);
    }
  }

  // ---------------------------------------------------------------------------------
  // The order of things.

  /** `part` stands in `whole` behind `before`. */
  predicate StandsBehind(whole: seq<byte>, before: seq<byte>, part: seq<byte>) {
    |before| + |part| <= |whole| && whole[..|before|] == before && whole[|before|..|before| + |part|] == part
  }

  lemma StandsFirst(first: seq<byte>, rest: seq<byte>)
    ensures StandsBehind(first + rest, [], first)
  {
    assert (first + rest)[0..|first|] == first;
  }

  lemma StandsLater(first: seq<byte>, rest: seq<byte>, before: seq<byte>, part: seq<byte>)
    requires StandsBehind(rest, before, part)
    ensures StandsBehind(first + rest, first + before, part)
  {
    assert (first + rest)[|first| + |before|..|first| + |before| + |part|] == rest[|before|..|before| + |part|];
  }

  /** The fields of a struct come in the order of the template. */
  lemma {:induction false} FieldsComeInOrder(fields: seq<FieldType>, item: Item, k: nat)
    requires ItemTyped(fields, item) && EncodeItem(fields, item).failure.None? && k < |fields|
    ensures StandsBehind(EncodeItem(fields, item).bytes, EncodeItem(fields[..k], item[..k]).bytes,
                         EncodeField(fields[k], item[k]).bytes)
    ensures EncodeItem(fields[..k], item[..k]).failure.None? && EncodeField(fields[k], item[k]).failure.None?
    decreases |fields|
  {
    var first, rest := EncodeField(fields[0], item[0]), EncodeItem(fields[1..], item[1..]);
    EncodeItemStep(fields, item);
    if k == 0 {
      StandsFirst(first.bytes, rest.bytes);
    } else {
      FieldsComeInOrder(fields[1..], item[1..], k - 1);
      assert fields[..k][1..] == fields[1..][..k - 1] && item[..k][1..] == item[1..][..k - 1];
      EncodeItemStep(fields[..k], item[..k]);
      StandsLater(first.bytes, rest.bytes, EncodeItem(fields[1..][..k - 1], item[1..][..k - 1]).bytes,
                  EncodeField(fields[k], item[k]).bytes);
    }
  }

  /** The items of a block come in the order they are listed. */
  lemma {:induction false} ItemsComeInOrder(fields: seq<FieldType>, items: seq<Item>, k: nat)
    requires ItemsTyped(fields, items) && EncodeItems(fields, items).failure.None? && k < |items|
    ensures StandsBehind(EncodeItems(fields, items).bytes, EncodeItems(fields, items[..k]).bytes,
                         EncodeItem(fields, items[k]).bytes)
    ensures EncodeItems(fields, items[..k]).failure.None? && EncodeItem(fields, items[k]).failure.None?
    decreases |items|
  {
    var first, rest := EncodeItem(fields, items[0]), EncodeItems(fields, items[1..]);
    EncodeItemsStep(fields, items);
    if k == 0 {
      StandsFirst(first.bytes, rest.bytes);
    } else {
      ItemsComeInOrder(fields, items[1..], k - 1);
      assert items[..k][1..] == items[1..][..k - 1];
      EncodeItemsStep(fields, items[..k]);
      StandsLater(first.bytes, rest.bytes, EncodeItems(fields, items[1..][..k - 1]).bytes,
                  EncodeItem(fields, items[k]).bytes);
    }
  }

  /** The blocks of a message come in the order of the template. */
  lemma {:induction false} BlocksComeInOrder(blocks: seq<BlockDef>, body: seq<seq<Item>>, k: nat)
    requires BodyTyped(blocks, body) && EncodeBody(blocks, body).failure.None? && k < |blocks|
    ensures StandsBehind(EncodeBody(blocks, body).bytes, EncodeBody(blocks[..k], body[..k]).bytes,
                         EncodeBlock(blocks[k], body[k]).bytes)
    ensures EncodeBody(blocks[..k], body[..k]).failure.None? && EncodeBlock(blocks[k], body[k]).failure.None?
    decreases |blocks|
  {
    var first, rest := EncodeBlock(blocks[0], body[0]), EncodeBody(blocks[1..], body[1..]);
    if k == 0 {
      StandsFirst(first.bytes, rest.bytes);
    } else {
      BlocksComeInOrder(blocks[1..], body[1..], k - 1);
      assert blocks[..k][1..] == blocks[1..][..k - 1] && body[..k][1..] == body[1..][..k - 1];
      StandsLater(first.bytes, rest.bytes, EncodeBody(blocks[1..][..k - 1], body[1..][..k - 1]).bytes,
                  EncodeBlock(blocks[k], body[k]).bytes);
    }
  }

  /** A `Variable` block starts with the number of its items; the others start with their first item. */
  lemma CountComesFirst(block: BlockDef, items: seq<Item>)
    requires BlockTyped(block, items) && EncodeBlock(block, items).failure.None?
    ensures var count := if block.cardinality.Variable? then |items| else 0;
            && count < 256 && EncodeBlock(block, items).bytes
                   == (if block.cardinality.Variable? then [count as byte] else [])
                      + EncodeItems(block.fields, items).bytes
    ensures block.cardinality.Multiple? ==> |items| == block.cardinality.count
  {
  }
}

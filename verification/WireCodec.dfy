/** Message bodies: `encode_body` and `decode_body` as an interpreter over every template. */
module WireCodec {
  // Floating-point numbers are their bit patterns.  A quaternion is sent as three floats; the
  // receiver's reconstruction of the fourth is the parameter `rebuild`.

  import opened Wrappers
  import opened WireFields

  datatype FieldType =
    | U8 | U16 | U32 | U64 | S8 | S16 | S32 | F32 | F64
    | Uuid | Vector3 | Vector3d | Vector4 | Quaternion | Bool | IpAddr | IpPort
    | VariableLength(lengthBytes: nat)
    | Fixed(bytes: nat)

  datatype Value =
    | Unsigned(n: nat)
    | Signed(i: int)
    | Floats(bits: seq<nat>)
    | Rotation(x: nat, y: nat, z: nat, s: nat)
    | Flag(on: bool)
    | Bytes(data: seq<byte>)

  type Rebuild = (nat, nat, nat) -> nat

  type Item = seq<Value>

  datatype Cardinality = Single | Multiple(count: nat) | Variable

  datatype BlockDef = BlockDef(name: string, cardinality: Cardinality, fields: seq<FieldType>)

  datatype MessageId = MessageId(frequency: nat, number: nat)

  datatype MessageDef = MessageDef(id: MessageId, blocks: seq<BlockDef>)

  // ---------------------------------------------------------------------------------
  // Fields.

  /** How a field is laid out: `count` little-endian words, raw bytes, or prefixed bytes. */
  datatype Layout =
    | UnsignedWord(width: nat)
    | SignedWord(width: nat)
    | FloatWords(width: nat, count: nat)
    | RotationWords
    | FlagByte
    | RawBytes(n: nat)
    | PrefixedBytes(prefix: nat)

  function LayoutOf(ty: FieldType): Layout {
    match ty
    case U8 => UnsignedWord(1)
    case U16 => UnsignedWord(2)
    case IpPort => UnsignedWord(2)
    case U32 => UnsignedWord(4)
    case U64 => UnsignedWord(8)
    case S8 => SignedWord(1)
    case S16 => SignedWord(2)
    case S32 => SignedWord(4)
    case F32 => FloatWords(4, 1)
    case F64 => FloatWords(8, 1)
    case Vector3 => FloatWords(4, 3)
    case Vector3d => FloatWords(8, 3)
    case Vector4 => FloatWords(4, 4)
    case Quaternion => RotationWords
    case Bool => FlagByte
    case Uuid => RawBytes(16)
    case IpAddr => RawBytes(4)
    case Fixed(n) => RawBytes(n)
    case VariableLength(k) => PrefixedBytes(if k == 2 then 2 else 1)
  }

  function Repeat<T>(x: T, n: nat): (r: seq<T>)
    ensures |r| == n
  {
    seq(n, _ => x)
  }

  function Prims(layout: Layout): seq<Prim> {
    match layout
    case UnsignedWord(w) => [Take(w)]
    case SignedWord(w) => [Take(w)]
    case FloatWords(w, n) => Repeat(Take(w), n)
    case RotationWords => Repeat(Take(4), 3)
    case FlagByte => [Take(1)]
    case RawBytes(n) => [Take(n)]
    case PrefixedBytes(k) => [Prefixed(k)]
  }

  /** The values a generated struct's field can hold. */
  predicate Typed(layout: Layout, v: Value) {
    match layout
    case UnsignedWord(w) => v.Unsigned? && v.n < Pow256(w)
    case SignedWord(w) => v.Signed? && -(Pow256(w) as int) <= 2 * v.i < Pow256(w)
    case FloatWords(w, n) => v.Floats? && |v.bits| == n && forall i | 0 <= i < n :: v.bits[i] < Pow256(w)
    case RotationWords => v.Rotation? && v.x < Pow256(4) && v.y < Pow256(4) && v.z < Pow256(4)
    case FlagByte => v.Flag?
    case RawBytes(n) => v.Bytes? && |v.data| == n
    case PrefixedBytes(_) => v.Bytes?
  }

  function Chunks(layout: Layout, v: Value): (chunks: seq<seq<byte>>)
    requires Typed(layout, v)
    ensures AllFit(Prims(layout), chunks)
  {
    match layout
    case UnsignedWord(w) => [LittleEndian(v.n, w)]
    case SignedWord(w) => [LittleEndian(ToUnsigned(v.i, w), w)]
    case FloatWords(w, n) => seq(n, i requires 0 <= i < n => LittleEndian(v.bits[i], w))
    case RotationWords => [LittleEndian(v.x, 4), LittleEndian(v.y, 4), LittleEndian(v.z, 4)]
    case FlagByte => [[if v.on then 1 else 0]]
    case RawBytes(_) => [v.data]
    case PrefixedBytes(_) => [v.data]
  }

  function Build(layout: Layout, chunks: seq<seq<byte>>, rebuild: Rebuild): Value
    requires AllFit(Prims(layout), chunks)
  {
    match layout
    case UnsignedWord(_) => Unsigned(FromLittleEndian(chunks[0]))
    case SignedWord(w) => Signed(FromUnsigned(FromLittleEndian(chunks[0]), w))
    case FloatWords(_, n) => Floats(seq(n, i requires 0 <= i < n => FromLittleEndian(chunks[i])))
    case RotationWords =>
      var x, y, z := FromLittleEndian(chunks[0]), FromLittleEndian(chunks[1]), FromLittleEndian(chunks[2]);
      Rotation(x, y, z, rebuild(x, y, z))
    case FlagByte =>
      assert Fits(Prims(layout)[0], chunks[0]);
      Flag(chunks[0][0] != 0)
    case RawBytes(_) => Bytes(chunks[0])
    case PrefixedBytes(_) => Bytes(chunks[0])
  }

  /** What the receiver gets for `v`: all of it, but for the rebuilt part of a rotation. */
  function Received(v: Value, rebuild: Rebuild): Value {
    if v.Rotation? then v.(s := rebuild(v.x, v.y, v.z)) else v
  }

  lemma BuildInverts(layout: Layout, v: Value, rebuild: Rebuild)
    requires Typed(layout, v)
    ensures Build(layout, Chunks(layout, v), rebuild) == Received(v, rebuild)
  {
    match layout
    case UnsignedWord(w) => LittleEndianRoundTrip(v.n, w);
    case SignedWord(w) => LittleEndianRoundTrip(ToUnsigned(v.i, w), w);
    case FloatWords(w, n) =>
      forall i | 0 <= i < n ensures FromLittleEndian(Chunks(layout, v)[i]) == v.bits[i] {
        LittleEndianRoundTrip(v.bits[i], w);
      }
      assert Build(layout, Chunks(layout, v), rebuild).bits == v.bits;
    case RotationWords =>
      LittleEndianRoundTrip(v.x, 4);
      LittleEndianRoundTrip(v.y, 4);
      LittleEndianRoundTrip(v.z, 4);
    case _ =>
  }

  lemma BuildIsTyped(layout: Layout, chunks: seq<seq<byte>>, rebuild: Rebuild)
    requires AllFit(Prims(layout), chunks)
    ensures Typed(layout, Build(layout, chunks, rebuild))
    ensures Received(Build(layout, chunks, rebuild), rebuild) == Build(layout, chunks, rebuild)
  {
    var prims := Prims(layout);
    forall i | 0 <= i < |chunks| ensures Fits(prims[i], chunks[i])
        && FromLittleEndian(chunks[i]) < Pow256(|chunks[i]|) {
      FromLittleEndianBound(chunks[i]);
    }
    match layout
    case UnsignedWord(w) => assert |chunks[0]| == w;
    case SignedWord(w) => assert |chunks[0]| == w;
    case RotationWords => assert |chunks[0]| == |chunks[1]| == |chunks[2]| == 4;
    case _ =>
  }

  // ---------------------------------------------------------------------------------
  // Encoding.

  predicate ItemTyped(fields: seq<FieldType>, item: Item) {
    |item| == |fields| && forall i | 0 <= i < |fields| :: Typed(LayoutOf(fields[i]), item[i])
  }

  predicate ItemsTyped(fields: seq<FieldType>, items: seq<Item>) {
    forall i | 0 <= i < |items| :: ItemTyped(fields, items[i])
  }

  /** A `Single` block is one struct, the others are vectors of any length. */
  predicate BlockTyped(block: BlockDef, items: seq<Item>) {
    ItemsTyped(block.fields, items) && (block.cardinality.Single? ==> |items| == 1)
  }

  predicate BodyTyped(blocks: seq<BlockDef>, body: seq<seq<Item>>) {
    |body| == |blocks| && forall i | 0 <= i < |blocks| :: BlockTyped(blocks[i], body[i])
  }

  function EncodeField(ty: FieldType, v: Value): Wrote
    requires Typed(LayoutOf(ty), v)
  {
    EncodePrims(Prims(LayoutOf(ty)), Chunks(LayoutOf(ty), v))
  }

  function EncodeItem(fields: seq<FieldType>, item: Item): Wrote
    requires ItemTyped(fields, item)
    decreases |fields|, 0
  {
    if fields == [] then WroteNothing else EncodeSomeFields(fields[0], item[0], fields[1..], item[1..])
  }

  /** At least one field; a step of its own, so that a proof can stop unfolding here. */
  function EncodeSomeFields(ty: FieldType, v: Value, fields: seq<FieldType>, item: Item): Wrote
    requires Typed(LayoutOf(ty), v) && ItemTyped(fields, item)
    decreases |fields|, 1
  {
    EncodeField(ty, v).Then(EncodeItem(fields, item))
  }

  lemma EncodeItemStep(fields: seq<FieldType>, item: Item)
    requires ItemTyped(fields, item) && fields != []
    ensures EncodeItem(fields, item) == EncodeField(fields[0], item[0]).Then(EncodeItem(fields[1..], item[1..]))
  {
    assert EncodeItem(fields, item) == EncodeSomeFields(fields[0], item[0], fields[1..], item[1..]);
  }

  function EncodeItems(fields: seq<FieldType>, items: seq<Item>): Wrote
    requires ItemsTyped(fields, items)
    decreases |items|, 0
  {
    if items == [] then WroteNothing else EncodeSomeItems(fields, items[0], items[1..])
  }

  /** At least one item; a step of its own, so that a proof can stop unfolding here. */
  function EncodeSomeItems(fields: seq<FieldType>, item: Item, items: seq<Item>): Wrote
    requires ItemTyped(fields, item) && ItemsTyped(fields, items)
    decreases |items|, 1
  {
    EncodeItem(fields, item).Then(EncodeItems(fields, items))
  }

  lemma EncodeItemsStep(fields: seq<FieldType>, items: seq<Item>)
    requires ItemsTyped(fields, items) && items != []
    ensures EncodeItems(fields, items) == EncodeItem(fields, items[0]).Then(EncodeItems(fields, items[1..]))
  {
  }

  /** What is written, or refused, before the items of a block. */
  function EncodeCount(block: BlockDef, count: nat): Wrote {
    match block.cardinality
    case Single => WroteNothing
    case Multiple(n) =>
      if count != n then Wrote([], Some(BlockCountMismatch(block.name, n, count))) else WroteNothing
    case Variable =>
      if count > 255 then Wrote([], Some(VariableTooLong(count, 255))) else Wrote([count as byte], None)
  }

  function EncodeBlock(block: BlockDef, items: seq<Item>): Wrote
    requires BlockTyped(block, items)
  {
    EncodeCount(block, |items|).Then(EncodeItems(block.fields, items))
  }

  function EncodeBody(blocks: seq<BlockDef>, body: seq<seq<Item>>): Wrote
    requires BodyTyped(blocks, body)
  {
    if blocks == [] then WroteNothing else EncodeBlock(blocks[0], body[0]).Then(EncodeBody(blocks[1..], body[1..]))
  }

  // ---------------------------------------------------------------------------------
  // Decoding.

  function ReadField(input: Input, c: Cursor, ty: FieldType, rebuild: Rebuild): (r: Read<Value>)
    requires c.pos <= |input.buf|
    ensures c.pos <= r.cursor.pos <= |input.buf|
  {
    match ReadPrims(input, c, Prims(LayoutOf(ty)))
    case Failed(e, d) => Failed(e, d)
    case Done(chunks, d) =>
      ReadFits(input, c, Prims(LayoutOf(ty)));
      Done(Build(LayoutOf(ty), chunks, rebuild), d)
  }

  function ReadItem(input: Input, c: Cursor, fields: seq<FieldType>, rebuild: Rebuild): (r: Read<Item>)
    requires c.pos <= |input.buf|
    ensures c.pos <= r.cursor.pos <= |input.buf|
    decreases |fields|, 0
  {
    if fields == [] then Done([], c) else ReadSomeFields(input, c, fields[0], fields[1..], rebuild)
  }

  /** At least one field; a step of its own, so that a proof can stop unfolding here. */
  function ReadSomeFields(input: Input, c: Cursor, ty: FieldType, fields: seq<FieldType>,
                          rebuild: Rebuild): (r: Read<Item>)
    requires c.pos <= |input.buf|
    ensures c.pos <= r.cursor.pos <= |input.buf|
    decreases |fields|, 1
  {
    match ReadField(input, c, ty, rebuild)
    case Failed(e, d) => Failed(e, d)
    case Done(v, d) =>
      match ReadItem(input, d, fields, rebuild)
      case Failed(e, f) => Failed(e, f)
      case Done(rest, f) => Done([v] + rest, f)
  }

  /** Reading a struct is reading its first field and then the others. */
  lemma ReadItemStep(input: Input, c: Cursor, fields: seq<FieldType>, rebuild: Rebuild)
    requires c.pos <= |input.buf| && fields != []
    ensures var first := ReadField(input, c, fields[0], rebuild);
            var all := ReadItem(input, c, fields, rebuild);
            && (all.Done? <==> first.Done? && ReadItem(input, first.cursor, fields[1..], rebuild).Done?)
            && (all.Done? ==>
                  var rest := ReadItem(input, first.cursor, fields[1..], rebuild);
                  all == Done([first.value] + rest.value, rest.cursor))
  {
    assert ReadItem(input, c, fields, rebuild) == ReadSomeFields(input, c, fields[0], fields[1..], rebuild);
  }

  function ReadItems(input: Input, c: Cursor, fields: seq<FieldType>, n: nat, rebuild: Rebuild): (r: Read<seq<Item>>)
    requires c.pos <= |input.buf|
    ensures c.pos <= r.cursor.pos <= |input.buf|
    decreases n, 0
  {
    if n == 0 then Done([], c) else ReadSomeItems(input, c, fields, n - 1, rebuild)
  }

  /** At least one item; a step of its own, so that a proof can stop unfolding here. */
  function ReadSomeItems(input: Input, c: Cursor, fields: seq<FieldType>, n: nat,
                         rebuild: Rebuild): (r: Read<seq<Item>>)
    requires c.pos <= |input.buf|
    ensures c.pos <= r.cursor.pos <= |input.buf|
    decreases n, 1
  {
    match ReadItem(input, c, fields, rebuild)
    case Failed(e, d) => Failed(e, d)
    case Done(item, d) =>
      match ReadItems(input, d, fields, n, rebuild)
      case Failed(e, f) => Failed(e, f)
      case Done(rest, f) => Done([item] + rest, f)
  }

  /** Reading items is reading the first and then the others. */
  lemma ReadItemsStep(input: Input, c: Cursor, fields: seq<FieldType>, n: nat, rebuild: Rebuild)
    requires c.pos <= |input.buf| && n > 0
    ensures var first := ReadItem(input, c, fields, rebuild);
            var all := ReadItems(input, c, fields, n, rebuild);
            && (all.Done? <==> first.Done? && ReadItems(input, first.cursor, fields, n - 1, rebuild).Done?)
            && (all.Done? ==>
                  var rest := ReadItems(input, first.cursor, fields, n - 1, rebuild);
                  all == Done([first.value] + rest.value, rest.cursor))
  {
    assert ReadItems(input, c, fields, n, rebuild) == ReadSomeItems(input, c, fields, n - 1, rebuild);
  }

  /** How many items of a block follow. */
  function ReadCount(input: Input, c: Cursor, cardinality: Cardinality, omittable: bool): (r: Read<nat>)
    requires c.pos <= |input.buf|
    ensures c.pos <= r.cursor.pos <= |input.buf|
  {
    match cardinality
    case Single => Done(1, c)
    case Multiple(n) => Done(n, c)
    case Variable =>
      if omittable then
        var (count, d) := VariableBlockCount(input, c);
        Done(count, d)
      else
        match TakeArray(input, c, 1)
        case Failed(e, d) => Failed(e, d)
        case Done(bytes, d) => Done(FromLittleEndian(bytes), d)
  }

  function ReadBlock(input: Input, c: Cursor, block: BlockDef, omittable: bool, rebuild: Rebuild): (r: Read<seq<Item>>)
    requires c.pos <= |input.buf|
    ensures c.pos <= r.cursor.pos <= |input.buf|
  {
    match ReadCount(input, c, block.cardinality, omittable)
    case Failed(e, d) => Failed(e, d)
    case Done(count, d) => ReadItems(input, d, block.fields, count, rebuild)
  }

  function Less(required: nat): nat { if required == 0 then 0 else required - 1 }

  /** Reads `blocks`, all but the first `required` of which may be missing at the end. */
  function ReadBody(input: Input, c: Cursor, blocks: seq<BlockDef>, required: nat,
                    rebuild: Rebuild): (r: Read<seq<seq<Item>>>)
    requires c.pos <= |input.buf|
    ensures c.pos <= r.cursor.pos <= |input.buf|
    decreases |blocks|
  {
    if blocks == [] then Done([], c)
    else
      match ReadBlock(input, c, blocks[0], required == 0, rebuild)
      case Failed(e, d) => Failed(e, d)
      case Done(items, d) =>
        match ReadBody(input, d, blocks[1..], Less(required), rebuild)
        case Failed(e, f) => Failed(e, f)
        case Done(rest, f) => Done([items] + rest, f)
  }

  /** The number of blocks before the trailing run of `Variable` blocks. */
  function TrailingVariableRun(blocks: seq<BlockDef>): (n: nat)
    ensures n <= |blocks|
    ensures forall i | n <= i < |blocks| :: blocks[i].cardinality.Variable?
    ensures n > 0 ==> !blocks[n - 1].cardinality.Variable?
  {
    if blocks == [] || !blocks[|blocks| - 1].cardinality.Variable? then |blocks|
    else TrailingVariableRun(blocks[..|blocks| - 1])
  }

  function DecodeBody(blocks: seq<BlockDef>, input: Input, c: Cursor, rebuild: Rebuild): Read<seq<seq<Item>>>
    requires c.pos <= |input.buf|
  {
    ReadBody(input, c, blocks, TrailingVariableRun(blocks), rebuild)
  }

  // ---------------------------------------------------------------------------------
  // Reading back what was written.

  function ItemReceived(item: Item, rebuild: Rebuild): Item {
    if item == [] then [] else [Received(item[0], rebuild)] + ItemReceived(item[1..], rebuild)
  }

  function ItemsReceived(items: seq<Item>, rebuild: Rebuild): seq<Item> {
    if items == [] then [] else [ItemReceived(items[0], rebuild)] + ItemsReceived(items[1..], rebuild)
  }

  function BodyReceived(body: seq<seq<Item>>, rebuild: Rebuild): seq<seq<Item>> {
    if body == [] then [] else [ItemsReceived(body[0], rebuild)] + BodyReceived(body[1..], rebuild)
  }

  function Skip(c: Cursor, wrote: Wrote): Cursor { Cursor(c.pos + |wrote.bytes|, c.zeroFilled) }

  lemma ReadBackField(input: Input, c: Cursor, ty: FieldType, v: Value, rebuild: Rebuild)
    requires Typed(LayoutOf(ty), v) && EncodeField(ty, v).failure.None?
    requires HasAt(input.buf, c.pos, EncodeField(ty, v).bytes)
    ensures ReadField(input, c, ty, rebuild) == Done(Received(v, rebuild), Skip(c, EncodeField(ty, v)))
  {
    ReadBackPrims(input, c, Prims(LayoutOf(ty)), Chunks(LayoutOf(ty), v));
    BuildInverts(LayoutOf(ty), v, rebuild);
  }

  /** What a field and the rest of its struct read as, together. */
  lemma JoinsItem(input: Input, c: Cursor, fields: seq<FieldType>, item: Item, rebuild: Rebuild, first: Wrote,
                  rest: Wrote)
    requires c.pos <= |input.buf| && fields != [] && item != [] && c.pos + |first.bytes| <= |input.buf|
    requires ReadField(input, c, fields[0], rebuild) == Done(Received(item[0], rebuild), Skip(c, first))
    requires ReadItem(input, Skip(c, first), fields[1..], rebuild)
          == Done(ItemReceived(item[1..], rebuild), Skip(Skip(c, first), rest))
    requires first.failure.None?
    ensures ReadItem(input, c, fields, rebuild) == Done(ItemReceived(item, rebuild), Skip(c, first.Then(rest)))
  {
    ReadItemStep(input, c, fields, rebuild);
  }

  lemma {:induction false} ReadBackItem(input: Input, c: Cursor, fields: seq<FieldType>, item: Item, rebuild: Rebuild)
    requires ItemTyped(fields, item) && EncodeItem(fields, item).failure.None?
    requires HasAt(input.buf, c.pos, EncodeItem(fields, item).bytes)
    ensures ReadItem(input, c, fields, rebuild) == Done(ItemReceived(item, rebuild), Skip(c, EncodeItem(fields, item)))
    decreases |fields|
  {
    if fields != [] {
      var first, rest := EncodeField(fields[0], item[0]), EncodeItem(fields[1..], item[1..]);
      EncodeItemStep(fields, item);
      assert first.failure.None? && rest.failure.None?;
      HasBoth(input.buf, c.pos, first.bytes, rest.bytes);
      ReadBackField(input, c, fields[0], item[0], rebuild);
      ReadBackItem(input, Skip(c, first), fields[1..], item[1..], rebuild);
      JoinsItem(input, c, fields, item, rebuild, first, rest);
    }
  }

  /** What an item and the others of its block read as, together. */
  lemma JoinsItems(input: Input, c: Cursor, fields: seq<FieldType>, items: seq<Item>, rebuild: Rebuild, first: Wrote,
                   rest: Wrote)
    requires c.pos <= |input.buf| && items != [] && c.pos + |first.bytes| <= |input.buf|
    requires ReadItem(input, c, fields, rebuild) == Done(ItemReceived(items[0], rebuild), Skip(c, first))
    requires ReadItems(input, Skip(c, first), fields, |items| - 1, rebuild)
          == Done(ItemsReceived(items[1..], rebuild), Skip(Skip(c, first), rest))
    requires first.failure.None?
    ensures ReadItems(input, c, fields, |items|, rebuild)
         == Done(ItemsReceived(items, rebuild), Skip(c, first.Then(rest)))
  {
    ReadItemsStep(input, c, fields, |items|, rebuild);
  }

  lemma {:induction false} ReadBackItems(input: Input, c: Cursor, fields: seq<FieldType>, items: seq<Item>,
                                         rebuild: Rebuild)
    requires ItemsTyped(fields, items) && EncodeItems(fields, items).failure.None?
    requires HasAt(input.buf, c.pos, EncodeItems(fields, items).bytes)
    ensures ReadItems(input, c, fields, |items|, rebuild)
         == Done(ItemsReceived(items, rebuild), Skip(c, EncodeItems(fields, items)))
    decreases |items|
  {
    if items != [] {
      var first, rest := EncodeItem(fields, items[0]), EncodeItems(fields, items[1..]);
      EncodeItemsStep(fields, items);
      assert first.failure.None? && rest.failure.None?;
      HasBoth(input.buf, c.pos, first.bytes, rest.bytes);
      ReadBackItem(input, c, fields, items[0], rebuild);
      ReadBackItems(input, Skip(c, first), fields, items[1..], rebuild);
      JoinsItems(input, c, fields, items, rebuild, first, rest);
    }
  }

  lemma ReadBackCount(input: Input, c: Cursor, block: BlockDef, count: nat, omittable: bool)
    requires EncodeCount(block, count).failure.None? && (block.cardinality.Single? ==> count == 1)
    requires HasAt(input.buf, c.pos, EncodeCount(block, count).bytes)
    ensures ReadCount(input, c, block.cardinality, omittable) == Done(count, Skip(c, EncodeCount(block, count)))
  {
    if block.cardinality.Variable? {
      assert input.buf[c.pos] == input.buf[c.pos..c.pos + 1][0];
      assert FromLittleEndian([count as byte]) == count;
    }
  }

  lemma ReadBackBlock(input: Input, c: Cursor, block: BlockDef, items: seq<Item>, omittable: bool, rebuild: Rebuild)
    requires BlockTyped(block, items) && EncodeBlock(block, items).failure.None?
    requires HasAt(input.buf, c.pos, EncodeBlock(block, items).bytes)
    ensures ReadBlock(input, c, block, omittable, rebuild)
         == Done(ItemsReceived(items, rebuild), Skip(c, EncodeBlock(block, items)))
  {
    var count, rest := EncodeCount(block, |items|), EncodeItems(block.fields, items);
    assert count.failure.None? && rest.failure.None?;
    HasBoth(input.buf, c.pos, count.bytes, rest.bytes);
    ReadBackCount(input, c, block, |items|, omittable);
    ReadBackItems(input, Skip(c, count), block.fields, items, rebuild);
  }

  lemma {:induction false} ReadBackBody(input: Input, c: Cursor, blocks: seq<BlockDef>, body: seq<seq<Item>>,
                                        required: nat, rebuild: Rebuild)
    requires BodyTyped(blocks, body) && EncodeBody(blocks, body).failure.None?
    requires HasAt(input.buf, c.pos, EncodeBody(blocks, body).bytes)
    ensures ReadBody(input, c, blocks, required, rebuild)
         == Done(BodyReceived(body, rebuild), Skip(c, EncodeBody(blocks, body)))
    decreases |blocks|
  {
    if blocks != [] {
      var first, rest := EncodeBlock(blocks[0], body[0]), EncodeBody(blocks[1..], body[1..]);
      assert first.failure.None? && rest.failure.None?;
      HasBoth(input.buf, c.pos, first.bytes, rest.bytes);
      ReadBackBlock(input, c, blocks[0], body[0], required == 0, rebuild);
      ReadBackBody(input, Skip(c, first), blocks[1..], body[1..], Less(required), rebuild);
    }
  }

  /** Round trip, for every message: whatever precedes and follows the encoded body, decoding
      consumes exactly its bytes and yields the value as received. */
  lemma DecodeInvertsEncode(blocks: seq<BlockDef>, body: seq<seq<Item>>, before: seq<byte>, after: seq<byte>,
                            zeroTail: bool, zeroFilled: nat, rebuild: Rebuild)
    requires BodyTyped(blocks, body) && EncodeBody(blocks, body).failure.None?
    ensures DecodeBody(blocks, Input(before + EncodeBody(blocks, body).bytes + after, zeroTail),
                       Cursor(|before|, zeroFilled), rebuild)
         == Done(BodyReceived(body, rebuild), Cursor(|before| + |EncodeBody(blocks, body).bytes|, zeroFilled))
  {
    var wrote := EncodeBody(blocks, body).bytes;
    var buf := before + wrote + after;
    assert buf[|before|..|before| + |wrote|] == wrote;
    ReadBackBody(Input(buf, zeroTail), Cursor(|before|, zeroFilled), blocks, body, TrailingVariableRun(blocks),
                 rebuild);
  }

  lemma DecodeInvertsWhole(blocks: seq<BlockDef>, body: seq<seq<Item>>, rebuild: Rebuild)
    requires BodyTyped(blocks, body) && EncodeBody(blocks, body).failure.None?
    ensures DecodeBody(blocks, Input(EncodeBody(blocks, body).bytes, false), Cursor(0, 0), rebuild)
         == Done(BodyReceived(body, rebuild), Cursor(|EncodeBody(blocks, body).bytes|, 0))
  {
    DecodeInvertsEncode(blocks, body, [], [], false, 0, rebuild);
    assert [] + EncodeBody(blocks, body).bytes + [] == EncodeBody(blocks, body).bytes;
  }

  /** The sender's own value comes back exactly if it was fully written. */
  ghost predicate FullyWritten(body: seq<seq<Item>>, rebuild: Rebuild) {
    forall b, i, f | 0 <= b < |body| && 0 <= i < |body[b]| && 0 <= f < |body[b][i]| ::
      Received(body[b][i][f], rebuild) == body[b][i][f]
  }

  lemma {:induction false} ItemReceivedAt(item: Item, rebuild: Rebuild)
    ensures |ItemReceived(item, rebuild)| == |item|
    ensures forall f | 0 <= f < |item| :: ItemReceived(item, rebuild)[f] == Received(item[f], rebuild)
  {
    if item != [] { ItemReceivedAt(item[1..], rebuild); }
  }

  lemma {:induction false} ItemsReceivedAt(items: seq<Item>, rebuild: Rebuild)
    ensures |ItemsReceived(items, rebuild)| == |items|
    ensures forall i | 0 <= i < |items| :: ItemsReceived(items, rebuild)[i] == ItemReceived(items[i], rebuild)
  {
    if items != [] { ItemsReceivedAt(items[1..], rebuild); }
  }

  lemma {:induction false} BodyReceivedAt(body: seq<seq<Item>>, rebuild: Rebuild)
    ensures |BodyReceived(body, rebuild)| == |body|
    ensures forall b | 0 <= b < |body| :: BodyReceived(body, rebuild)[b] == ItemsReceived(body[b], rebuild)
  {
    if body != [] { BodyReceivedAt(body[1..], rebuild); }
  }

  lemma ReceivedIffFullyWritten(body: seq<seq<Item>>, rebuild: Rebuild)
    ensures BodyReceived(body, rebuild) == body <==> FullyWritten(body, rebuild)
  {
    BodyReceivedAt(body, rebuild);
    forall b | 0 <= b < |body|
      ensures ItemsReceived(body[b], rebuild) == body[b] <==>
                forall i, f | 0 <= i < |body[b]| && 0 <= f < |body[b][i]| ::
                    Received(body[b][i][f], rebuild) == body[b][i][f]
    {
      ItemsReceivedAt(body[b], rebuild);
      forall i | 0 <= i < |body[b]|
        ensures ItemReceived(body[b][i], rebuild) == body[b][i] <==>
                  forall f | 0 <= f < |body[b][i]| :: Received(body[b][i][f], rebuild) == body[b][i][f]
      {
        ItemReceivedAt(body[b][i], rebuild);
      }
    }
  }

  // ---------------------------------------------------------------------------------
  // Encoding is refused exactly for these reasons.

  predicate FieldAccepted(ty: FieldType, v: Value) {
    ty.VariableLength? && v.Bytes? ==> |v.data| <= if ty.lengthBytes == 2 then 65535 else 255
  }

  predicate ItemAccepted(fields: seq<FieldType>, item: Item) {
    |item| == |fields| && forall f | 0 <= f < |fields| :: FieldAccepted(fields[f], item[f])
  }

  predicate BlockAccepted(block: BlockDef, items: seq<Item>) {
    && (block.cardinality.Multiple? ==> |items| == block.cardinality.count)
    && (block.cardinality.Variable? ==> |items| <= 255)
    && forall i | 0 <= i < |items| :: ItemAccepted(block.fields, items[i])
  }

  lemma FieldRefusal(ty: FieldType, v: Value)
    requires Typed(LayoutOf(ty), v)
    ensures EncodeField(ty, v).failure.None? <==> FieldAccepted(ty, v)
  {
    var layout := LayoutOf(ty);
    if ty.VariableLength? {
      assert Pow256(2) == 65536 && Pow256(1) == 256;
      assert EncodePrims(Prims(layout)[1..], Chunks(layout, v)[1..]) == WroteNothing;
    } else {
      TakesNeverFail(Prims(layout), Chunks(layout, v));
    }
  }

  lemma {:induction false} TakesNeverFail(prims: seq<Prim>, chunks: seq<seq<byte>>)
    requires |chunks| == |prims| && forall i | 0 <= i < |prims| :: prims[i].Take?
    ensures EncodePrims(prims, chunks).failure.None?
  {
    if prims != [] { TakesNeverFail(prims[1..], chunks[1..]); }
  }

  /** How many bytes a field takes on the wire. */
  function Occupies(ty: FieldType, v: Value): nat {
    match ty
    case U8 | S8 | Bool => 1
    case U16 | S16 | IpPort => 2
    case U32 | S32 | F32 | IpAddr => 4
    case U64 | F64 => 8
    case Vector3 | Quaternion => 12
    case Uuid | Vector4 => 16
    case Vector3d => 24
    case Fixed(n) => n
    case VariableLength(k) => (if k == 2 then 2 else 1) + if v.Bytes? then |v.data| else 0
  }

  lemma {:induction false} WordsTake(prims: seq<Prim>, chunks: seq<seq<byte>>, width: nat)
    requires |chunks| == |prims| && forall i | 0 <= i < |prims| :: prims[i] == Take(width) && |chunks[i]| == width
    ensures |EncodePrims(prims, chunks).bytes| == width * |prims|
  {
    if prims != [] {
      TakesNeverFail(prims, chunks);
      WordsTake(prims[1..], chunks[1..], width);
      EncodeStep(prims, chunks);
      assert width * |prims| == width + width * (|prims| - 1);
    }
  }

  /** A written field takes the bytes its type prescribes; a byte string follows its length. */
  lemma FieldOccupies(ty: FieldType, v: Value)
    requires Typed(LayoutOf(ty), v) && EncodeField(ty, v).failure.None?
    ensures |EncodeField(ty, v).bytes| == Occupies(ty, v)
    ensures ty.VariableLength? ==>
              EncodeField(ty, v).bytes == LittleEndian(|v.data|, if ty.lengthBytes == 2 then 2 else 1) + v.data
  {
    var prims, chunks := Prims(LayoutOf(ty)), Chunks(LayoutOf(ty), v);
    if ty.VariableLength? {
      EncodeStep(prims, chunks);
      assert EncodePrims(prims[1..], chunks[1..]) == WroteNothing;
    } else if prims != [] {
      WordsTake(prims, chunks, prims[0].n);
    }
  }

  lemma {:induction false} ItemRefusal(fields: seq<FieldType>, item: Item)
    requires ItemTyped(fields, item)
    ensures EncodeItem(fields, item).failure.None? <==> ItemAccepted(fields, item)
  {
    if fields != [] {
      FieldRefusal(fields[0], item[0]);
      ItemRefusal(fields[1..], item[1..]);
      EncodeItemStep(fields, item);
      assert ItemAccepted(fields, item)
             <==> FieldAccepted(fields[0], item[0]) && ItemAccepted(fields[1..], item[1..]) by {
        if FieldAccepted(fields[0], item[0]) && ItemAccepted(fields[1..], item[1..]) {
          forall f | 0 <= f < |fields| ensures FieldAccepted(fields[f], item[f]) {
            if f > 0 { assert FieldAccepted(fields[1..][f - 1], item[1..][f - 1]); }
          }
        }
      }
    }
  }

  lemma {:induction false} ItemsRefusal(fields: seq<FieldType>, items: seq<Item>)
    requires ItemsTyped(fields, items)
    ensures EncodeItems(fields, items).failure.None? <==> forall i | 0 <= i < |items| :: ItemAccepted(fields, items[i])
  {
    if items != [] {
      ItemRefusal(fields, items[0]);
      ItemsRefusal(fields, items[1..]);
      EncodeItemsStep(fields, items);
      if EncodeItems(fields, items).failure.None? {
        forall i | 0 <= i < |items| ensures ItemAccepted(fields, items[i]) {
          if i > 0 { assert ItemAccepted(fields, items[1..][i - 1]); }
        }
      }
    }
  }

  /** `encode_body` refuses a body exactly for a `Multiple` block of another length, a
      `Variable` block of more than 255 items, or a byte string too long for its prefix. */
  lemma {:induction false} EncodeRefusal(blocks: seq<BlockDef>, body: seq<seq<Item>>)
    requires BodyTyped(blocks, body)
    ensures EncodeBody(blocks, body).failure.None? <==> forall b | 0 <= b < |blocks| ::
              BlockAccepted(blocks[b], body[b])
  {
    if blocks != [] {
      ItemsRefusal(blocks[0].fields, body[0]);
      EncodeRefusal(blocks[1..], body[1..]);
      if EncodeBody(blocks, body).failure.None? {
        forall b | 0 <= b < |blocks| ensures BlockAccepted(blocks[b], body[b]) {
          if b > 0 { assert BlockAccepted(blocks[1..][b - 1], body[1..][b - 1]); }
        }
      }
    }
  }

  // ---------------------------------------------------------------------------------
  // Truncated bodies.

  lemma CutField(input: Input, c: Cursor, ty: FieldType, v: Value, rebuild: Rebuild)
    requires !input.zeroTail && Typed(LayoutOf(ty), v) && EncodeField(ty, v).failure.None?
    requires CutAt(input.buf, c.pos, EncodeField(ty, v).bytes)
    ensures ReadField(input, c, ty, rebuild).Failed?
  {
    CutPrims(input, c, Prims(LayoutOf(ty)), Chunks(LayoutOf(ty), v));
  }

  lemma ItemFailsFirst(input: Input, c: Cursor, fields: seq<FieldType>, rebuild: Rebuild)
    requires c.pos <= |input.buf| && fields != [] && ReadField(input, c, fields[0], rebuild).Failed?
    ensures ReadItem(input, c, fields, rebuild).Failed?
  {
    ReadItemStep(input, c, fields, rebuild);
  }

  lemma ItemFailsLater(input: Input, c: Cursor, fields: seq<FieldType>, rebuild: Rebuild, v: Value, next: Cursor)
    requires c.pos <= next.pos <= |input.buf| && fields != []
    requires ReadField(input, c, fields[0], rebuild) == Done(v, next)
    requires ReadItem(input, next, fields[1..], rebuild).Failed?
    ensures ReadItem(input, c, fields, rebuild).Failed?
  {
    ReadItemStep(input, c, fields, rebuild);
  }

  lemma CutFirstField(input: Input, c: Cursor, fields: seq<FieldType>, item: Item, rebuild: Rebuild)
    requires !input.zeroTail && ItemTyped(fields, item) && fields != []
    requires EncodeField(fields[0], item[0]).failure.None?
    requires CutAt(input.buf, c.pos, EncodeField(fields[0], item[0]).bytes)
    ensures ReadItem(input, c, fields, rebuild).Failed?
  {
    CutField(input, c, fields[0], item[0], rebuild);
    ItemFailsFirst(input, c, fields, rebuild);
  }

  lemma {:induction false} CutLaterField(input: Input, c: Cursor, fields: seq<FieldType>, item: Item, rebuild: Rebuild,
                                         next: Cursor)
    requires !input.zeroTail && ItemTyped(fields, item) && fields != []
    requires EncodeField(fields[0], item[0]).failure.None? && EncodeItem(fields[1..], item[1..]).failure.None?
    requires HasAt(input.buf, c.pos, EncodeField(fields[0], item[0]).bytes)
    requires next == Skip(c, EncodeField(fields[0], item[0]))
    requires CutAt(input.buf, next.pos, EncodeItem(fields[1..], item[1..]).bytes)
    ensures ReadItem(input, c, fields, rebuild).Failed?
    decreases |fields|, 0
  {
    ReadBackField(input, c, fields[0], item[0], rebuild);
    CutItem(input, next, fields[1..], item[1..], rebuild);
    ItemFailsLater(input, c, fields, rebuild, Received(item[0], rebuild), next);
  }

  lemma {:induction false} CutItem(input: Input, c: Cursor, fields: seq<FieldType>, item: Item, rebuild: Rebuild)
    requires !input.zeroTail && ItemTyped(fields, item) && EncodeItem(fields, item).failure.None?
    requires CutAt(input.buf, c.pos, EncodeItem(fields, item).bytes)
    ensures ReadItem(input, c, fields, rebuild).Failed?
    decreases |fields|, 1
  {
    if fields != [] {
      var first, rest := EncodeField(fields[0], item[0]), EncodeItem(fields[1..], item[1..]);
      EncodeItemStep(fields, item);
      assert first.failure.None? && rest.failure.None?;
      CutInEither(input.buf, c.pos, first.bytes, rest.bytes);
      if CutAt(input.buf, c.pos, first.bytes) {
        CutFirstField(input, c, fields, item, rebuild);
      } else {
        CutLaterField(input, c, fields, item, rebuild, Skip(c, first));
      }
    }
  }

  lemma {:induction false} CutItems(input: Input, c: Cursor, fields: seq<FieldType>, items: seq<Item>, rebuild: Rebuild)
    requires !input.zeroTail && ItemsTyped(fields, items) && EncodeItems(fields, items).failure.None?
    requires CutAt(input.buf, c.pos, EncodeItems(fields, items).bytes)
    ensures ReadItems(input, c, fields, |items|, rebuild).Failed?
    decreases |items|
  {
    if items != [] {
      var first, rest := EncodeItem(fields, items[0]), EncodeItems(fields, items[1..]);
      EncodeItemsStep(fields, items);
      ReadItemsStep(input, c, fields, |items|, rebuild);
      assert first.failure.None? && rest.failure.None?;
      CutInEither(input.buf, c.pos, first.bytes, rest.bytes);
      if CutAt(input.buf, c.pos, first.bytes) {
        CutItem(input, c, fields, items[0], rebuild);
      } else {
        ReadBackItem(input, c, fields, items[0], rebuild);
        CutItems(input, Skip(c, first), fields, items[1..], rebuild);
      }
    }
  }

  /** A block cut anywhere but before an omittable count does not decode. */
  lemma CutBlock(input: Input, c: Cursor, block: BlockDef, items: seq<Item>, omittable: bool, rebuild: Rebuild)
    requires !input.zeroTail && BlockTyped(block, items) && EncodeBlock(block, items).failure.None?
    requires CutAt(input.buf, c.pos, EncodeBlock(block, items).bytes)
    requires omittable && block.cardinality.Variable? ==> c.pos < |input.buf|
    ensures ReadBlock(input, c, block, omittable, rebuild).Failed?
  {
    var count, rest := EncodeCount(block, |items|), EncodeItems(block.fields, items);
    assert count.failure.None? && rest.failure.None?;
    CutInEither(input.buf, c.pos, count.bytes, rest.bytes);
    if !CutAt(input.buf, c.pos, count.bytes) {
      ReadBackCount(input, c, block, |items|, omittable);
      CutItems(input, Skip(c, count), block.fields, items, rebuild);
    }
  }

  /** Blocks that may be missing read as empty at the end of the data. */
  lemma {:induction false} OmittedBlocks(input: Input, c: Cursor, blocks: seq<BlockDef>, rebuild: Rebuild)
    requires c.pos == |input.buf| && forall i | 0 <= i < |blocks| :: blocks[i].cardinality.Variable?
    ensures ReadBody(input, c, blocks, 0, rebuild) == Done(Repeat([], |blocks|), c)
    decreases |blocks|
  {
    if blocks != [] {
      OmittedBlocks(input, c, blocks[1..], rebuild);
      assert blocks[0].cardinality.Variable?;
      assert Repeat<seq<Item>>([], |blocks|) == [[]] + Repeat<seq<Item>>([], |blocks| - 1);
    } else {
      assert Repeat<seq<Item>>([], 0) == [];
    }
  }

  /** The omittable block before whose count byte the body is cut, if any. */
  function OmittedFrom(blocks: seq<BlockDef>, body: seq<seq<Item>>, required: nat, cut: nat): (k: Option<nat>)
    requires BodyTyped(blocks, body)
    ensures k.Some? ==> k.value < |blocks|
  {
    if blocks == [] then None
    else if required == 0 && cut == 0 then Some(0)
    else
      var first := |EncodeBlock(blocks[0], body[0]).bytes|;
      if cut < first then None
      else
        match OmittedFrom(blocks[1..], body[1..], Less(required), cut - first)
        case None => None
        case Some(k) => Some(k + 1)
  }

  /** What a body decodes to when the blocks from `k` on are missing. */
  function WithoutTail(body: seq<seq<Item>>, k: nat, rebuild: Rebuild): seq<seq<Item>> {
    if body == [] then []
    else if k == 0 then Repeat([], |body|)
    else [ItemsReceived(body[0], rebuild)] + WithoutTail(body[1..], k - 1, rebuild)
  }

  lemma CutInFirst(input: Input, c: Cursor, blocks: seq<BlockDef>, body: seq<seq<Item>>, required: nat,
                   rebuild: Rebuild)
    requires !input.zeroTail && BodyTyped(blocks, body) && blocks != [] && EncodeBlock(blocks[0], body[0]).failure.None?
    requires forall i | required <= i < |blocks| :: blocks[i].cardinality.Variable?
    requires CutAt(input.buf, c.pos, EncodeBlock(blocks[0], body[0]).bytes)
    ensures ReadBody(input, c, blocks, required, rebuild).Done? <==> required == 0 && |input.buf| == c.pos
    ensures ReadBody(input, c, blocks, required, rebuild).Done? ==>
              ReadBody(input, c, blocks, required, rebuild) == Done(Repeat([], |blocks|), c)
  {
    if required == 0 && |input.buf| == c.pos {
      OmittedBlocks(input, c, blocks, rebuild);
    } else {
      CutBlock(input, c, blocks[0], body[0], required == 0, rebuild);
    }
  }

  /** Cutting the encoded body after `c` leaves exactly what `omitted` says. */
  ghost predicate LeavesOut(input: Input, c: Cursor, body: seq<seq<Item>>, rebuild: Rebuild, omitted: Option<nat>,
                            r: Read<seq<seq<Item>>>)
  {
    match omitted
    case None => r.Failed?
    case Some(k) => r == Done(WithoutTail(body, k, rebuild), Cursor(|input.buf|, c.zeroFilled))
  }

  /** `r` is what reading one more block, worth `items`, before `later` gives. */
  predicate Prepends(items: seq<Item>, later: Read<seq<seq<Item>>>, r: Read<seq<seq<Item>>>) {
    if later.Failed? then r.Failed? else r == Done([items] + later.value, later.cursor)
  }

  /** `omitted` is `later`, counted from one block earlier on. */
  predicate Follows(later: Option<nat>, omitted: Option<nat>) {
    omitted == match later case None => None case Some(k) => Some(k + 1)
  }

  /** The cut falls behind the first block, which is read in full. */
  lemma ReadBehindFirst(input: Input, c: Cursor, blocks: seq<BlockDef>, body: seq<seq<Item>>, required: nat,
                        rebuild: Rebuild, next: Cursor, later: Read<seq<seq<Item>>>, r: Read<seq<seq<Item>>>)
    requires BodyTyped(blocks, body) && blocks != [] && EncodeBlock(blocks[0], body[0]).failure.None?
    requires HasAt(input.buf, c.pos, EncodeBlock(blocks[0], body[0]).bytes)
             && next == Skip(c, EncodeBlock(blocks[0], body[0]))
    requires later == ReadBody(input, next, blocks[1..], Less(required), rebuild)
    requires r == ReadBody(input, c, blocks, required, rebuild)
    ensures Prepends(ItemsReceived(body[0], rebuild), later, r)
  {
    ReadBackBlock(input, c, blocks[0], body[0], required == 0, rebuild);
  }

  lemma OmittedBehindFirst(blocks: seq<BlockDef>, body: seq<seq<Item>>, required: nat, cut: nat, rest: nat,
                           later: Option<nat>, omitted: Option<nat>)
    requires BodyTyped(blocks, body) && blocks != [] && EncodeBlock(blocks[0], body[0]).failure.None?
    requires cut == |EncodeBlock(blocks[0], body[0]).bytes| + rest
    requires forall i | required <= i < |blocks| :: blocks[i].cardinality.Variable?
    requires later == OmittedFrom(blocks[1..], body[1..], Less(required), rest)
    requires omitted == OmittedFrom(blocks, body, required, cut)
    ensures Follows(later, omitted)
  {
    if required == 0 { VariableTakesSpace(blocks[0], body[0]); }
  }

  lemma LeavesOutMore(input: Input, c: Cursor, next: Cursor, body: seq<seq<Item>>, rebuild: Rebuild,
                     later: Option<nat>, laterRead: Read<seq<seq<Item>>>, omitted: Option<nat>,
                     r: Read<seq<seq<Item>>>)
    requires body != [] && next.zeroFilled == c.zeroFilled
    requires LeavesOut(input, next, body[1..], rebuild, later, laterRead)
    requires Follows(later, omitted)
    requires Prepends(ItemsReceived(body[0], rebuild), laterRead, r)
    ensures LeavesOut(input, c, body, rebuild, omitted, r)
  {
  }

  lemma CutFirst(input: Input, c: Cursor, blocks: seq<BlockDef>, body: seq<seq<Item>>, required: nat, rebuild: Rebuild,
                 omitted: Option<nat>, r: Read<seq<seq<Item>>>)
    requires !input.zeroTail && BodyTyped(blocks, body) && blocks != [] && EncodeBlock(blocks[0], body[0]).failure.None?
    requires forall i | required <= i < |blocks| :: blocks[i].cardinality.Variable?
    requires CutAt(input.buf, c.pos, EncodeBlock(blocks[0], body[0]).bytes)
    requires omitted == OmittedFrom(blocks, body, required, |input.buf| - c.pos)
             && r == ReadBody(input, c, blocks, required, rebuild)
    ensures LeavesOut(input, c, body, rebuild, omitted, r)
  {
    CutInFirst(input, c, blocks, body, required, rebuild);
    assert omitted == if required == 0 && |input.buf| == c.pos then Some(0) else None;
  }

  lemma {:induction false} CutBody(input: Input, c: Cursor, blocks: seq<BlockDef>, body: seq<seq<Item>>, required: nat,
                                   rebuild: Rebuild, omitted: Option<nat>, r: Read<seq<seq<Item>>>)
    requires !input.zeroTail && BodyTyped(blocks, body) && EncodeBody(blocks, body).failure.None?
    requires forall i | required <= i < |blocks| :: blocks[i].cardinality.Variable?
    requires CutAt(input.buf, c.pos, EncodeBody(blocks, body).bytes)
    requires omitted == OmittedFrom(blocks, body, required, |input.buf| - c.pos)
             && r == ReadBody(input, c, blocks, required, rebuild)
    ensures LeavesOut(input, c, body, rebuild, omitted, r)
    decreases |blocks|, 1
  {
    if blocks != [] {
      var first, rest := EncodeBlock(blocks[0], body[0]), EncodeBody(blocks[1..], body[1..]);
      assert first.failure.None? && rest.failure.None?;
      CutInEither(input.buf, c.pos, first.bytes, rest.bytes);
      if CutAt(input.buf, c.pos, first.bytes) {
        CutFirst(input, c, blocks, body, required, rebuild, omitted, r);
      } else {
        CutLater(input, c, blocks, body, required, rebuild, Skip(c, first), omitted, r);
      }
    }
  }

  lemma SkippedBy(buf: seq<byte>, c: Cursor, first: Wrote, next: Cursor)
    requires HasAt(buf, c.pos, first.bytes) && next == Skip(c, first)
    ensures next.pos <= |buf| && |buf| - c.pos == |first.bytes| + (|buf| - next.pos)
  {
  }

  lemma TailVariable(blocks: seq<BlockDef>, required: nat)
    requires blocks != [] && forall i | required <= i < |blocks| :: blocks[i].cardinality.Variable?
    ensures forall i | Less(required) <= i < |blocks[1..]| :: blocks[1..][i].cardinality.Variable?
  {
  }

  lemma CutBehindFirst(input: Input, c: Cursor, blocks: seq<BlockDef>, body: seq<seq<Item>>, required: nat,
                       rebuild: Rebuild, next: Cursor, rest: nat, later: Option<nat>, laterRead: Read<seq<seq<Item>>>,
                       omitted: Option<nat>, r: Read<seq<seq<Item>>>)
    requires BodyTyped(blocks, body) && blocks != [] && EncodeBlock(blocks[0], body[0]).failure.None?
    requires forall i | required <= i < |blocks| :: blocks[i].cardinality.Variable?
    requires HasAt(input.buf, c.pos, EncodeBlock(blocks[0], body[0]).bytes)
             && next == Skip(c, EncodeBlock(blocks[0], body[0])) && rest == |input.buf| - next.pos
    requires later == OmittedFrom(blocks[1..], body[1..], Less(required), rest)
             && omitted == OmittedFrom(blocks, body, required, |input.buf| - c.pos)
    requires laterRead == ReadBody(input, next, blocks[1..], Less(required), rebuild)
             && r == ReadBody(input, c, blocks, required, rebuild)
    requires LeavesOut(input, next, body[1..], rebuild, later, laterRead)
    ensures LeavesOut(input, c, body, rebuild, omitted, r)
  {
    SkippedBy(input.buf, c, EncodeBlock(blocks[0], body[0]), next);
    OmittedBehindFirst(blocks, body, required, |input.buf| - c.pos, rest, later, omitted);
    ReadBehindFirst(input, c, blocks, body, required, rebuild, next, laterRead, r);
    LeavesOutMore(input, c, next, body, rebuild, later, laterRead, omitted, r);
  }

  lemma {:induction false} CutLater(input: Input, c: Cursor, blocks: seq<BlockDef>, body: seq<seq<Item>>, required: nat,
                                    rebuild: Rebuild, next: Cursor, omitted: Option<nat>, r: Read<seq<seq<Item>>>)
    requires !input.zeroTail && BodyTyped(blocks, body) && blocks != [] && EncodeBlock(blocks[0], body[0]).failure.None?
    requires forall i | required <= i < |blocks| :: blocks[i].cardinality.Variable?
    requires HasAt(input.buf, c.pos, EncodeBlock(blocks[0], body[0]).bytes)
             && next == Skip(c, EncodeBlock(blocks[0], body[0]))
    requires EncodeBody(blocks[1..], body[1..]).failure.None?
    requires CutAt(input.buf, next.pos, EncodeBody(blocks[1..], body[1..]).bytes)
    requires omitted == OmittedFrom(blocks, body, required, |input.buf| - c.pos)
             && r == ReadBody(input, c, blocks, required, rebuild)
    ensures LeavesOut(input, c, body, rebuild, omitted, r)
    decreases |blocks|, 0
  {
    var rest: nat := |input.buf| - next.pos;
    var later := OmittedFrom(blocks[1..], body[1..], Less(required), rest);
    var laterRead := ReadBody(input, next, blocks[1..], Less(required), rebuild);
    TailVariable(blocks, required);
    CutBody(input, next, blocks[1..], body[1..], Less(required), rebuild, later, laterRead);
    CutBehindFirst(input, c, blocks, body, required, rebuild, next, rest, later, laterRead, omitted, r);
  }

  /** Where block `k` starts in the encoded body. */
  function Boundary(blocks: seq<BlockDef>, body: seq<seq<Item>>, k: nat): nat
    requires BodyTyped(blocks, body) && k <= |blocks|
  {
    |EncodeBody(blocks[..k], body[..k]).bytes|
  }

  lemma BoundaryStep(blocks: seq<BlockDef>, body: seq<seq<Item>>, k: nat)
    requires BodyTyped(blocks, body) && 0 < k <= |blocks| && EncodeBlock(blocks[0], body[0]).failure.None?
    ensures Boundary(blocks, body, k)
            == |EncodeBlock(blocks[0], body[0]).bytes| + Boundary(blocks[1..], body[1..], k - 1)
  {
    assert blocks[..k][1..] == blocks[1..][..k - 1] && body[..k][1..] == body[1..][..k - 1];
  }

  lemma VariableTakesSpace(block: BlockDef, items: seq<Item>)
    requires BlockTyped(block, items) && block.cardinality.Variable? && EncodeBlock(block, items).failure.None?
    ensures |EncodeBlock(block, items).bytes| > 0
  {
  }

  lemma {:induction false} OmittedFromIsBoundary(blocks: seq<BlockDef>, body: seq<seq<Item>>, required: nat, cut: nat,
                                                 k: nat,
                                                 omitted: Option<nat>)
    requires BodyTyped(blocks, body) && EncodeBody(blocks, body).failure.None?
    requires forall i | required <= i < |blocks| :: blocks[i].cardinality.Variable?
    requires omitted == OmittedFrom(blocks, body, required, cut)
    ensures omitted == Some(k) <==> required <= k < |blocks| && cut == Boundary(blocks, body, k)
    decreases |blocks|
  {
    if blocks != [] {
      var first := EncodeBlock(blocks[0], body[0]);
      assert first.failure.None? && EncodeBody(blocks[1..], body[1..]).failure.None?;
      if required == 0 { VariableTakesSpace(blocks[0], body[0]); }
      if 0 < k < |blocks| {
        BoundaryStep(blocks, body, k);
        if cut >= |first.bytes| {
          OmittedFromIsBoundary(blocks[1..], body[1..], Less(required), cut - |first.bytes|, k - 1,
                                OmittedFrom(blocks[1..], body[1..], Less(required), cut - |first.bytes|));
        }
      }
    }
  }

  lemma {:induction false} WithoutTailAt(body: seq<seq<Item>>, k: nat, rebuild: Rebuild)
    requires k <= |body|
    ensures |WithoutTail(body, k, rebuild)| == |body| == |BodyReceived(body, rebuild)|
    ensures forall b | 0 <= b < |body| ::
              WithoutTail(body, k, rebuild)[b] == if b < k then BodyReceived(body, rebuild)[b] else []
  {
    BodyReceivedAt(body, rebuild);
    if body != [] && k > 0 {
      WithoutTailAt(body[1..], k - 1, rebuild);
      BodyReceivedAt(body[1..], rebuild);
    }
  }

  /** A proper prefix of an encoded body decodes exactly if it ends where a block of the
      trailing `Variable` run starts; it then yields that block and all later ones empty. */
  lemma TruncationIsOmission(blocks: seq<BlockDef>, body: seq<seq<Item>>, cut: nat, rebuild: Rebuild)
    requires BodyTyped(blocks, body) && EncodeBody(blocks, body).failure.None?
    requires cut < |EncodeBody(blocks, body).bytes|
    ensures var r := DecodeBody(blocks, Input(EncodeBody(blocks, body).bytes[..cut], false), Cursor(0, 0), rebuild);
            && (r.Done? <==> exists k ::
                TrailingVariableRun(blocks) <= k < |blocks| && cut == Boundary(blocks, body, k))
            && (forall k | TrailingVariableRun(blocks) <= k < |blocks| && cut == Boundary(blocks, body, k) ::
                  && r.Done? && r.cursor == Cursor(cut, 0) && |r.value| == |body| == |BodyReceived(body, rebuild)|
                  && forall b | 0 <= b < |body| :: r.value[b] == if b < k then BodyReceived(body, rebuild)[b] else [])
  {
    var bytes := EncodeBody(blocks, body).bytes;
    var input := Input(bytes[..cut], false);
    var run := TrailingVariableRun(blocks);
    assert CutAt(input.buf, 0, bytes);
    var omitted := OmittedFrom(blocks, body, run, cut);
    CutBody(input, Cursor(0, 0), blocks, body, run, rebuild, omitted,
            ReadBody(input, Cursor(0, 0), blocks, run, rebuild));
    if omitted.Some? {
      OmittedFromIsBoundary(blocks, body, run, cut, omitted.value, omitted);
      WithoutTailAt(body, omitted.value, rebuild);
    }
    BodyReceivedAt(body, rebuild);
    forall k | run <= k < |blocks| && cut == Boundary(blocks, body, k) ensures omitted == Some(k) {
      OmittedFromIsBoundary(blocks, body, run, cut, k, omitted);
    }
  }

  // ---------------------------------------------------------------------------------
  // Zero-tailed readers.

  /** The zero-tailed read of `buf` does what the strict read of `buf` and `k` zeros does. */
  ghost predicate Mirrors<T>(buf: seq<byte>, padded: Read<T>, strict: Read<T>) {
    strict.Done? ==> padded.Done? && padded.value == strict.value && Tracks(buf, padded.cursor, strict.cursor)
  }

  lemma ZeroTailField(buf: seq<byte>, k: nat, c: Cursor, d: Cursor, ty: FieldType, rebuild: Rebuild)
    requires Tracks(buf, c, d) && d.pos <= |buf| + k
    ensures Mirrors(buf, ReadField(Input(buf, true), c, ty, rebuild),
                    ReadField(Input(buf + Zeros(k), false), d, ty, rebuild))
  {
    if ReadField(Input(buf + Zeros(k), false), d, ty, rebuild).Done? {
      ZeroTailPrims(buf, k, c, d, Prims(LayoutOf(ty)));
    }
  }

  lemma {:induction false} ZeroTailItem(buf: seq<byte>, k: nat, c: Cursor, d: Cursor, fields: seq<FieldType>,
                                        rebuild: Rebuild)
    requires Tracks(buf, c, d) && d.pos <= |buf| + k
    ensures Mirrors(buf, ReadItem(Input(buf, true), c, fields, rebuild),
                    ReadItem(Input(buf + Zeros(k), false), d, fields, rebuild))
    decreases |fields|
  {
    if fields != [] {
      ZeroTailField(buf, k, c, d, fields[0], rebuild);
      var padded, strict :=
          ReadField(Input(buf, true), c, fields[0], rebuild),
              ReadField(Input(buf + Zeros(k), false), d, fields[0], rebuild);
      if strict.Done? {
        ZeroTailItem(buf, k, padded.cursor, strict.cursor, fields[1..], rebuild);
        ReadItemStep(Input(buf, true), c, fields, rebuild);
      }
      ReadItemStep(Input(buf + Zeros(k), false), d, fields, rebuild);
    }
  }

  lemma {:induction false} ZeroTailItems(buf: seq<byte>, k: nat, c: Cursor, d: Cursor, fields: seq<FieldType>, n: nat,
                                         rebuild: Rebuild)
    requires Tracks(buf, c, d) && d.pos <= |buf| + k
    ensures Mirrors(buf, ReadItems(Input(buf, true), c, fields, n, rebuild),
                    ReadItems(Input(buf + Zeros(k), false), d, fields, n, rebuild))
    decreases n
  {
    if n > 0 {
      ZeroTailItem(buf, k, c, d, fields, rebuild);
      var padded, strict :=
          ReadItem(Input(buf, true), c, fields, rebuild), ReadItem(Input(buf + Zeros(k), false), d, fields, rebuild);
      if strict.Done? {
        ZeroTailItems(buf, k, padded.cursor, strict.cursor, fields, n - 1, rebuild);
        ReadItemsStep(Input(buf, true), c, fields, n, rebuild);
      }
      ReadItemsStep(Input(buf + Zeros(k), false), d, fields, n, rebuild);
    }
  }

  lemma ZeroTailBlock(buf: seq<byte>, k: nat, c: Cursor, d: Cursor, block: BlockDef, omittable: bool, rebuild: Rebuild)
    requires Tracks(buf, c, d) && d.pos <= |buf| + k
    ensures Mirrors(buf, ReadBlock(Input(buf, true), c, block, omittable, rebuild),
                    ReadBlock(Input(buf + Zeros(k), false), d, block, omittable, rebuild))
  {
    var padded, strict :=
        ReadCount(Input(buf, true), c, block.cardinality, omittable),
            ReadCount(Input(buf + Zeros(k), false), d, block.cardinality, omittable);
    if strict.Done? {
      if block.cardinality.Variable? && !omittable {
        ZeroTailTake(buf, k, c, d, 1);
      }
      ZeroTailItems(buf, k, padded.cursor, strict.cursor, block.fields, strict.value, rebuild);
    }
  }

  lemma {:induction false} ZeroTailBody(buf: seq<byte>, k: nat, c: Cursor, d: Cursor, blocks: seq<BlockDef>,
                                        required: nat, rebuild: Rebuild)
    requires Tracks(buf, c, d) && d.pos <= |buf| + k
    ensures Mirrors(buf, ReadBody(Input(buf, true), c, blocks, required, rebuild),
                    ReadBody(Input(buf + Zeros(k), false), d, blocks, required, rebuild))
    decreases |blocks|
  {
    if blocks != [] {
      ZeroTailBlock(buf, k, c, d, blocks[0], required == 0, rebuild);
      var padded, strict :=
          ReadBlock(Input(buf, true), c, blocks[0], required == 0, rebuild),
              ReadBlock(Input(buf + Zeros(k), false), d, blocks[0], required == 0, rebuild);
      if strict.Done? {
        ZeroTailBody(buf, k, padded.cursor, strict.cursor, blocks[1..], Less(required), rebuild);
      }
    }
  }

  lemma {:induction false} ZeroTailItemNeverFails(buf: seq<byte>, c: Cursor, fields: seq<FieldType>, rebuild: Rebuild)
    requires c.pos <= |buf|
    ensures ReadItem(Input(buf, true), c, fields, rebuild).Done?
    decreases |fields|
  {
    if fields != [] {
      ZeroTailNeverFails(buf, c, Prims(LayoutOf(fields[0])));
      ZeroTailItemNeverFails(buf, ReadField(Input(buf, true), c, fields[0], rebuild).cursor, fields[1..], rebuild);
    }
  }

  lemma {:induction false} ZeroTailItemsNeverFail(buf: seq<byte>, c: Cursor, fields: seq<FieldType>, n: nat,
                                                  rebuild: Rebuild)
    requires c.pos <= |buf|
    ensures ReadItems(Input(buf, true), c, fields, n, rebuild).Done?
    decreases n
  {
    if n > 0 {
      ZeroTailItemNeverFails(buf, c, fields, rebuild);
      ZeroTailItemsNeverFail(buf, ReadItem(Input(buf, true), c, fields, rebuild).cursor, fields, n - 1, rebuild);
    }
  }

  lemma {:induction false} ZeroTailBodyNeverFails(buf: seq<byte>, c: Cursor, blocks: seq<BlockDef>, required: nat,
                                                  rebuild: Rebuild)
    requires c.pos <= |buf|
    ensures ReadBody(Input(buf, true), c, blocks, required, rebuild).Done?
    decreases |blocks|
  {
    if blocks != [] {
      var count := ReadCount(Input(buf, true), c, blocks[0].cardinality, required == 0);
      ZeroTailItemsNeverFail(buf, count.cursor, blocks[0].fields, count.value, rebuild);
      var first := ReadBlock(Input(buf, true), c, blocks[0], required == 0, rebuild);
      ZeroTailBodyNeverFails(buf, first.cursor, blocks[1..], Less(required), rebuild);
    }
  }

  /** A zero-tailed reader accepts every body, and if the sender cut `k` zero bytes from the
      end of an encoded body, it still yields the value as received. */
  lemma ZeroTailRestores(blocks: seq<BlockDef>, body: seq<seq<Item>>, short: seq<byte>, k: nat, rebuild: Rebuild)
    requires BodyTyped(blocks, body) && EncodeBody(blocks, body).failure.None?
    requires EncodeBody(blocks, body).bytes == short + Zeros(k)
    ensures DecodeBody(blocks, Input(short, true), Cursor(0, 0), rebuild).Done?
    ensures DecodeBody(blocks, Input(short, true), Cursor(0, 0), rebuild).value == BodyReceived(body, rebuild)
  {
    var bytes := EncodeBody(blocks, body).bytes;
    DecodeInvertsWhole(blocks, body, rebuild);
    ZeroTailBody(short, k, Cursor(0, 0), Cursor(0, 0), blocks, TrailingVariableRun(blocks), rebuild);
  }

  // ---------------------------------------------------------------------------------
  // Whatever decodes can be sent on unchanged.

  lemma DecodedField(input: Input, c: Cursor, ty: FieldType, rebuild: Rebuild)
    requires c.pos <= |input.buf| && ReadField(input, c, ty, rebuild).Done?
    ensures var v := ReadField(input, c, ty, rebuild).value;
            Typed(LayoutOf(ty), v) && FieldAccepted(ty, v) && Received(v, rebuild) == v
  {
    var layout := LayoutOf(ty);
    var read := ReadPrims(input, c, Prims(layout));
    ReadFits(input, c, Prims(layout));
    BuildIsTyped(layout, read.value, rebuild);
    if ty.VariableLength? {
      assert EncodePrims(Prims(layout), read.value).failure.None?;
      assert Pow256(2) == 65536 && Pow256(1) == 256;
    }
  }

  /** Typed, accepted by the encoder, and kept by a second round trip. */
  predicate Stable(fields: seq<FieldType>, item: Item, rebuild: Rebuild) {
    ItemTyped(fields, item) && ItemAccepted(fields, item) && ItemReceived(item, rebuild) == item
  }

  lemma StableCons(fields: seq<FieldType>, item: Item, rebuild: Rebuild)
    requires fields != [] && item != []
    requires Typed(LayoutOf(fields[0]), item[0]) && FieldAccepted(fields[0], item[0])
             && Received(item[0], rebuild) == item[0]
    requires Stable(fields[1..], item[1..], rebuild)
    ensures Stable(fields, item, rebuild)
  {
    forall f | 0 <= f < |fields| ensures Typed(LayoutOf(fields[f]), item[f]) && FieldAccepted(fields[f], item[f]) {
      if f > 0 {
        assert fields[f] == fields[1..][f - 1] && item[f] == item[1..][f - 1];
      }
    }
  }

  lemma {:induction false} DecodedItem(input: Input, c: Cursor, fields: seq<FieldType>, rebuild: Rebuild)
    requires c.pos <= |input.buf| && ReadItem(input, c, fields, rebuild).Done?
    ensures Stable(fields, ReadItem(input, c, fields, rebuild).value, rebuild)
    decreases |fields|
  {
    if fields != [] {
      DecodedField(input, c, fields[0], rebuild);
      var first := ReadField(input, c, fields[0], rebuild);
      DecodedItem(input, first.cursor, fields[1..], rebuild);
      var item := ReadItem(input, c, fields, rebuild).value;
      assert item[1..] == ReadItem(input, first.cursor, fields[1..], rebuild).value;
      StableCons(fields, item, rebuild);
    }
  }

  lemma {:induction false} DecodedItems(input: Input, c: Cursor, fields: seq<FieldType>, n: nat, rebuild: Rebuild)
    requires c.pos <= |input.buf| && ReadItems(input, c, fields, n, rebuild).Done?
    ensures var items := ReadItems(input, c, fields, n, rebuild).value;
            && |items| == n && ItemsReceived(items, rebuild) == items
            && forall i | 0 <= i < n :: Stable(fields, items[i], rebuild)
    decreases n
  {
    if n > 0 {
      DecodedItem(input, c, fields, rebuild);
      DecodedItems(input, ReadItem(input, c, fields, rebuild).cursor, fields, n - 1, rebuild);
    }
  }

  lemma DecodedBlock(input: Input, c: Cursor, block: BlockDef, omittable: bool, rebuild: Rebuild)
    requires c.pos <= |input.buf| && ReadBlock(input, c, block, omittable, rebuild).Done?
    ensures var items := ReadBlock(input, c, block, omittable, rebuild).value;
            BlockTyped(block, items) && BlockAccepted(block, items) && ItemsReceived(items, rebuild) == items
  {
    var count := ReadCount(input, c, block.cardinality, omittable);
    if block.cardinality.Variable? && !omittable {
      FromLittleEndianBound(TakeArray(input, c, 1).value);
      assert Pow256(1) == 256;
    }
    DecodedItems(input, count.cursor, block.fields, count.value, rebuild);
    var items := ReadBlock(input, c, block, omittable, rebuild).value;
    forall i | 0 <= i < |items| ensures ItemTyped(block.fields, items[i]) && ItemAccepted(block.fields, items[i]) {
      assert Stable(block.fields, items[i], rebuild);
    }
  }

  lemma {:induction false} DecodedBody(input: Input, c: Cursor, blocks: seq<BlockDef>, required: nat, rebuild: Rebuild)
    requires c.pos <= |input.buf| && ReadBody(input, c, blocks, required, rebuild).Done?
    ensures var body := ReadBody(input, c, blocks, required, rebuild).value;
            && |body| == |blocks| && BodyReceived(body, rebuild) == body
            && forall b | 0 <= b < |blocks| :: BlockTyped(blocks[b], body[b]) && BlockAccepted(blocks[b], body[b])
    decreases |blocks|
  {
    if blocks != [] {
      DecodedBlock(input, c, blocks[0], required == 0, rebuild);
      DecodedBody(input, ReadBlock(input, c, blocks[0], required == 0, rebuild).cursor, blocks[1..], Less(required),
                  rebuild);
    }
  }

  /** Whatever bytes a body was decoded from, the encoder accepts the decoded value and
      decoding its encoding yields the same value again. */
  lemma DecodedBodyIsStable(blocks: seq<BlockDef>, input: Input, c: Cursor, rebuild: Rebuild)
    requires c.pos <= |input.buf| && DecodeBody(blocks, input, c, rebuild).Done?
    ensures var body := DecodeBody(blocks, input, c, rebuild).value;
            && BodyTyped(blocks, body) && EncodeBody(blocks, body).failure.None?
            && DecodeBody(blocks, Input(EncodeBody(blocks, body).bytes, false), Cursor(0, 0), rebuild)
            == Done(body, Cursor(|EncodeBody(blocks, body).bytes|, 0))
  {
    var body := DecodeBody(blocks, input, c, rebuild).value;
    DecodedBody(input, c, blocks, TrailingVariableRun(blocks), rebuild);
    EncodeRefusal(blocks, body);
    DecodeInvertsWhole(blocks, body, rebuild);
  }

  // ---------------------------------------------------------------------------------
  // Dispatch over all messages of a template.

  /** A decoded message: which of the template's messages it is, and its body. */
  datatype AnyMessage = AnyMessage(message: nat, body: seq<seq<Item>>)

  /** Of messages with the same id only the first is ever decoded. */
  function FirstWithId(messages: seq<MessageDef>, id: MessageId): (m: Option<nat>)
    ensures m.Some? ==> m.value < |messages| && messages[m.value].id == id
    ensures forall i | 0 <= i < if m.Some? then m.value else |messages| :: messages[i].id != id
  {
    if messages == [] then None
    else if messages[0].id == id then Some(0)
    else match FirstWithId(messages[1..], id) case None => None case Some(i) => Some(i + 1)
  }

  function DecodeAny(messages: seq<MessageDef>, id: MessageId, input: Input, c: Cursor,
                     rebuild: Rebuild): Read<AnyMessage>
    requires c.pos <= |input.buf|
  {
    match FirstWithId(messages, id)
    case None => Failed(UnknownMessage, c)
    case Some(m) =>
      match DecodeBody(messages[m].blocks, input, c, rebuild)
      case Failed(e, d) => Failed(e, d)
      case Done(body, d) => Done(AnyMessage(m, body), d)
  }

  /** A fully written message comes back under its id exactly if no earlier message of the
      template bears the same id. */
  lemma DispatchInverts(messages: seq<MessageDef>, m: nat, body: seq<seq<Item>>, rebuild: Rebuild)
    requires m < |messages| && BodyTyped(messages[m].blocks, body) && EncodeBody(messages[m].blocks, body).failure.None?
    requires FullyWritten(body, rebuild)
    ensures var bytes := EncodeBody(messages[m].blocks, body).bytes;
            DecodeAny(messages, messages[m].id, Input(bytes, false), Cursor(0, 0), rebuild)
                == Done(AnyMessage(m, body), Cursor(|bytes|, 0))
            <==> forall i | 0 <= i < m :: messages[i].id != messages[m].id
  {
    ReceivedIffFullyWritten(body, rebuild);
    DecodeInvertsWhole(messages[m].blocks, body, rebuild);
    var first := FirstWithId(messages, messages[m].id);
    assert first == Some(m) <==> forall i | 0 <= i < m :: messages[i].id != messages[m].id;
  }

  /** Of two messages with one id and no blocks, the second comes back as the first. */
  lemma SecondComesBackAsFirst()
    ensures var id := MessageId(1, 1);
            var messages := [MessageDef(id, []), MessageDef(id, [])];
            && EncodeBody(messages[1].blocks, []) == WroteNothing
            && forall rebuild: Rebuild ::
                 DecodeAny(messages, id, Input([], false), Cursor(0, 0), rebuild)
                     == Done(AnyMessage(0, []), Cursor(0, 0))
  {
  }
}

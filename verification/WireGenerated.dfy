/**
 The generated `encode_body` and `decode_body` in their own form: loops over the blocks,
 items and fields of a message that drive a mutable `Writer` or `Reader`.
 */
module WireGenerated {
  import opened Wrappers
  import opened WireCodec
  import opened WireFields

  method WriteItem(fields: seq<FieldType>, item: Item, writer: Writer) returns (failure: Option<WireError>)
    requires ItemTyped(fields, item)
    modifies writer
    ensures writer.buf == old(writer.buf) + EncodeItem(fields, item).bytes
            && failure == EncodeItem(fields, item).failure
  {
    var i := 0;
    while i < |fields|
      invariant 0 <= i <= |fields| && ItemTyped(fields[i..], item[i..])
      invariant Wrote(old(writer.buf), None).Then(EncodeItem(fields, item))
                == Wrote(writer.buf, None).Then(EncodeItem(fields[i..], item[i..]))
    {
      assert fields[i..][1..] == fields[i + 1..] && item[i..][1..] == item[i + 1..];
      assert fields[i..][0] == fields[i] && item[i..][0] == item[i];
      ThenAssociates(Wrote(writer.buf, None), EncodeField(fields[i], item[i]),
                     EncodeItem(fields[i + 1..], item[i + 1..]));
      var layout := LayoutOf(fields[i]);
      failure := writer.PutChunks(Prims(layout), Chunks(layout, item[i]));
      if failure.Some? {
        return;
      }
      i := i + 1;
    }
    failure := None;
  }

  method WriteItems(fields: seq<FieldType>, items: seq<Item>, writer: Writer) returns (failure: Option<WireError>)
    requires ItemsTyped(fields, items)
    modifies writer
    ensures writer.buf == old(writer.buf) + EncodeItems(fields, items).bytes
            && failure == EncodeItems(fields, items).failure
  {
    var i := 0;
    while i < |items|
      invariant 0 <= i <= |items|
      invariant Wrote(old(writer.buf), None).Then(EncodeItems(fields, items))
                == Wrote(writer.buf, None).Then(EncodeItems(fields, items[i..]))
    {
      assert items[i..][1..] == items[i + 1..];
      ThenAssociates(Wrote(writer.buf, None), EncodeItem(fields, items[i]), EncodeItems(fields, items[i + 1..]));
      failure := WriteItem(fields, items[i], writer);
      if failure.Some? {
        return;
      }
      i := i + 1;
    }
    failure := None;
  }

  /** The checks on a block's items, and the count byte of a `Variable` block. */
  method WriteCount(block: BlockDef, items: seq<Item>, writer: Writer) returns (failure: Option<WireError>)
    modifies writer
    ensures writer.buf == old(writer.buf) + EncodeCount(block, |items|).bytes
    ensures failure == EncodeCount(block, |items|).failure
  {
    failure := None;
    match block.cardinality {
      case Single =>
      case Multiple(count) =>
        if |items| != count {
          return Some(BlockCountMismatch(block.name, count, |items|));
        }
      case Variable =>
        if |items| > 255 {
          return Some(VariableTooLong(|items|, 255));
        }
        failure := writer.PutChunk(Take(1), [|items| as byte]);
    }
  }

  method WriteBlock(block: BlockDef, items: seq<Item>, writer: Writer) returns (failure: Option<WireError>)
    requires BlockTyped(block, items)
    modifies writer
    ensures writer.buf == old(writer.buf) + EncodeBlock(block, items).bytes
    ensures failure == EncodeBlock(block, items).failure
  {
    failure := WriteCount(block, items, writer);
    if failure.None? {
      failure := WriteItems(block.fields, items, writer);
    }
  }

  method WriteBody(blocks: seq<BlockDef>, body: seq<seq<Item>>, writer: Writer) returns (failure: Option<WireError>)
    requires BodyTyped(blocks, body)
    modifies writer
    ensures writer.buf == old(writer.buf) + EncodeBody(blocks, body).bytes
            && failure == EncodeBody(blocks, body).failure
  {
    var i := 0;
    while i < |blocks|
      invariant 0 <= i <= |blocks|
      invariant Wrote(old(writer.buf), None).Then(EncodeBody(blocks, body))
                == Wrote(writer.buf, None).Then(EncodeBody(blocks[i..], body[i..]))
    {
      assert blocks[i..][1..] == blocks[i + 1..] && body[i..][1..] == body[i + 1..];
      ThenAssociates(Wrote(writer.buf, None), EncodeBlock(blocks[i], body[i]),
                     EncodeBody(blocks[i + 1..], body[i + 1..]));
      failure := WriteBlock(blocks[i], body[i], writer);
      if failure.Some? {
        return;
      }
      i := i + 1;
    }
    failure := None;
  }

  method TakeField(ty: FieldType, reader: Reader, rebuild: Rebuild) returns (r: Result<Value, WireError>)
    requires reader.Valid()
    modifies reader
    ensures reader.Reports(r, ReadField(reader.Source(), old(reader.At()), ty, rebuild))
  {
    var chunks := reader.TakeChunks(Prims(LayoutOf(ty)));
    match chunks
    case Err(error) =>
      r := Err(error);
    case Ok(values) =>
      ReadFits(reader.Source(), old(reader.At()), Prims(LayoutOf(ty)));
      r := Ok(Build(LayoutOf(ty), values, rebuild));
  }

  lemma ItemReadOn(input: Input, c: Cursor, fields: seq<FieldType>, rebuild: Rebuild)
    requires c.pos <= |input.buf| && fields != []
    ensures ReadItem(input, c, fields, rebuild)
         == match ReadField(input, c, fields[0], rebuild)
            case Failed(e, d) => Failed(e, d)
            case Done(v, d) => After([v], ReadItem(input, d, fields[1..], rebuild))
  {
    assert ReadItem(input, c, fields, rebuild) == ReadSomeFields(input, c, fields[0], fields[1..], rebuild);
  }

  method TakeItem(fields: seq<FieldType>, reader: Reader, rebuild: Rebuild) returns (r: Result<Item, WireError>)
    requires reader.Valid()
    modifies reader
    ensures reader.Reports(r, ReadItem(reader.Source(), old(reader.At()), fields, rebuild))
  {
    var item: Item := [];
    var i := 0;
    assert fields[0..] == fields;
    AfterNothing(ReadItem(reader.Source(), reader.At(), fields, rebuild));
    while i < |fields|
      invariant reader.Valid() && 0 <= i <= |fields|
      invariant ReadItem(reader.Source(), old(reader.At()), fields, rebuild)
             == After(item, ReadItem(reader.Source(), reader.At(), fields[i..], rebuild))
    {
      assert fields[i..][0] == fields[i] && fields[i..][1..] == fields[i + 1..];
      ItemReadOn(reader.Source(), reader.At(), fields[i..], rebuild);
      var v := TakeField(fields[i], reader, rebuild);
      if v.Err? {
        return Err(v.error);
      }
      AfterOneMore(item, v.value, ReadItem(reader.Source(), reader.At(), fields[i + 1..], rebuild));
      item := item + [v.value];
      i := i + 1;
    }
    assert item + [] == item;
    r := Ok(item);
  }

  method TakeBlock(block: BlockDef, omittable: bool, reader: Reader, rebuild: Rebuild)
    returns (r: Result<seq<Item>, WireError>)
    requires reader.Valid()
    modifies reader
    ensures reader.Reports(r, ReadBlock(reader.Source(), old(reader.At()), block, omittable, rebuild))
  {
    var count: nat;
    match block.cardinality {
      case Single => count := 1;
      case Multiple(n) => count := n;
      case Variable =>
        if omittable {
          count := reader.BlockCount();
        } else {
          var bytes := reader.Take(1);
          if bytes.Err? {
            return Err(bytes.error);
          }
          count := FromLittleEndian(bytes.value);
        }
    }
    ghost var start := reader.At();
    var items: seq<Item> := [];
    var left := count;
    AfterNothing(ReadItems(reader.Source(), start, block.fields, count, rebuild));
    while left > 0
      invariant reader.Valid() && 0 <= left <= count
      invariant ReadItems(reader.Source(), start, block.fields, count, rebuild)
             == After(items, ReadItems(reader.Source(), reader.At(), block.fields, left, rebuild))
    {
      var item := TakeItem(block.fields, reader, rebuild);
      if item.Err? {
        return Err(item.error);
      }
      AfterOneMore(items, item.value, ReadItems(reader.Source(), reader.At(), block.fields, left - 1, rebuild));
      items := items + [item.value];
      left := left - 1;
    }
    assert items + [] == items;
    r := Ok(items);
  }

  /** How many of the blocks from `i` on must be present. */
  function RequiredFrom(trailing: nat, i: nat): (n: nat)
    ensures Less(n) == if i + 1 < trailing then trailing - (i + 1) else 0
    ensures n == 0 <==> i >= trailing
  {
    if i < trailing then trailing - i else 0
  }

  method TakeBody(blocks: seq<BlockDef>, reader: Reader, rebuild: Rebuild)
    returns (r: Result<seq<seq<Item>>, WireError>)
    requires reader.Valid()
    modifies reader
    ensures reader.Reports(r, DecodeBody(blocks, reader.Source(), old(reader.At()), rebuild))
  {
    var trailing := TrailingVariableRun(blocks);
    var body: seq<seq<Item>> := [];
    var i := 0;
    assert blocks[0..] == blocks;
    AfterNothing(DecodeBody(blocks, reader.Source(), reader.At(), rebuild));
    while i < |blocks|
      invariant reader.Valid() && 0 <= i <= |blocks|
      invariant DecodeBody(blocks, reader.Source(), old(reader.At()), rebuild)
             == After(body, ReadBody(reader.Source(), reader.At(), blocks[i..], RequiredFrom(trailing, i), rebuild))
    {
      assert blocks[i..][1..] == blocks[i + 1..];
      ghost var here := reader.At();
      ghost var block := ReadBlock(reader.Source(), here, blocks[i], i >= trailing, rebuild);
      var items := TakeBlock(blocks[i], i >= trailing, reader, rebuild);
      if items.Err? {
        return Err(items.error);
      }
      AfterOneMore(body, items.value,
                   ReadBody(reader.Source(), reader.At(), blocks[i + 1..], RequiredFrom(trailing, i + 1), rebuild));
      body := body + [items.value];
      i := i + 1;
    }
    assert body + [] == body;
    r := Ok(body);
  }
}

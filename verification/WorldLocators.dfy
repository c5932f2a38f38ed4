/**
 World locators: one step of the selector grammar over in-world criteria.
 How numbers with a fraction and UUIDs are spelled is a parameter, because their printers
 and parsers belong to libraries.
 */
module WorldLocators {
  import opened Wrappers
  import opened SelectorText
  import opened SelectorGrammar
  import opened Locators

  /** The bits of a single-precision number. */
  type F32 = n: nat | n <= 0xFFFF_FFFF

  predicate IsNaN(f: F32) { (f / 0x80_0000) % 0x100 == 0xFF && f % 0x80_0000 != 0 }

  type Uuid = n: nat | n <= 0xFFFF_FFFF_FFFF_FFFF_FFFF_FFFF_FFFF_FFFF

  type U8 = n: nat | n <= 0xFF

  /** How fractional numbers and UUIDs print and parse. */
  datatype Spelling = Spelling(
    floatText: F32 -> string, parseFloat: string -> Option<F32>,
    uuidText: Uuid -> string, parseUuid: string -> Option<Uuid>)

  ghost predicate FloatFaithful(t: Spelling, f: F32) {
    IsBare(t.floatText(f)) && t.parseFloat(t.floatText(f)) == Some(f)
  }

  ghost predicate UuidFaithful(t: Spelling, u: Uuid) {
    IsBare(t.uuidText(u)) && t.parseUuid(t.uuidText(u)) == Some(u)
  }

  /** Every number but NaN and every UUID prints in plain characters and parses back. */
  ghost predicate Faithful(t: Spelling) {
    (forall f: F32 :: IsNaN(f) || FloatFaithful(t, f)) && forall u: Uuid :: UuidFaithful(t, u)
  }

  datatype Kind = Avatar | Object | Attachment

  function KindName(k: Kind): string {
    match k
    case Avatar => "avatar"
    case Object => "object"
    case Attachment => "attachment"
  }

  function FindKind(name: string): Option<Kind> {
    if name == "avatar" then Some(Avatar)
    else if name == "object" then Some(Object)
    else if name == "attachment" then Some(Attachment)
    else None
  }

  datatype Anchor = Point(x: F32, y: F32, z: F32) | OwnAvatar

  datatype Near = Near(to: Anchor, radius: Option<F32>)

  datatype WorldLocator = WorldLocator(
    kind: Option<Kind>, own: Option<bool>, name: Option<NameMatcher>, fullId: Option<Uuid>, localId: Option<U32>,
    owner: Option<Uuid>, pcode: Option<U8>, hoverText: Option<NameMatcher>, near: Option<Near>, nth: Option<U32>)

  const ANYTHING_THERE := WorldLocator(None, None, None, None, None, None, None, None, None, None)

  predicate AnchorIsNumber(a: Anchor) { a.Point? ==> !IsNaN(a.x) && !IsNaN(a.y) && !IsNaN(a.z) }

  /** No number of the locator is NaN. */
  predicate IsNumber(l: WorldLocator) {
    l.near.Some? ==>
        AnchorIsNumber(l.near.value.to) && (l.near.value.radius.Some? ==> !IsNaN(l.near.value.radius.value))
  }

  // ---------------------------------------------------------------------------------
  // Parsing.

  /** A locator being filled: proximity is put together at the end. */
  datatype Draft = Draft(locator: WorldLocator, near: Option<Anchor>, radius: Option<F32>, radiusAt: Option<nat>)

  function ParseAll(t: Spelling, parts: seq<string>): Option<seq<F32>> {
    if parts == [] then Some([])
    else
      match t.parseFloat(Trim(parts[0]))
      case None => None
      case Some(f) =>
        match ParseAll(t, parts[1..])
        case None => None
        case Some(rest) => Some([f] + rest)
  }

  function AnchorOf(t: Spelling, attr: Attr): Fallible<Anchor> {
    var value :- Whole(attr);
    if value == "own_avatar" then Ok(OwnAvatar)
    else
      match ParseAll(t, Split(value, ','))
      case None => Err(ErrorAt(attr.at, Wants(attr.key, value)))
      case Some(p) => if |p| == 3 then Ok(Point(p[0], p[1], p[2])) else Err(ErrorAt(attr.at, ThreeCoordinates(value)))
  }

  datatype WorldKey = Own | Name | FullId | LocalId | Owner | Pcode | HoverText | NearTo | Radius | Nth

  function WorldKeyOf(key: string): Option<WorldKey> {
    if key == "own" then Some(Own)
    else if key == "name" then Some(WorldKey.Name)
    else if key == "full_id" then Some(FullId)
    else if key == "local_id" then Some(LocalId)
    else if key == "owner" then Some(Owner)
    else if key == "pcode" then Some(Pcode)
    else if key == "hover_text" then Some(HoverText)
    else if key == "near" then Some(NearTo)
    else if key == "radius" then Some(Radius)
    else if key == "nth" then Some(WorldKey.Nth)
    else None
  }

  function ApplyWorld(t: Spelling, d: Draft, attr: Attr): Fallible<Draft> {
    var l := d.locator;
    match WorldKeyOf(attr.key)
    case Some(Own) =>
      var own :- Parsed(attr, ParseBool(attr.value));
      var slot :- Fill(l.own, attr, own);
      Ok(d.(locator := l.(own := slot)))
    case Some(Name) =>
      var slot :- Fill(l.name, attr, MatcherOf(attr));
      Ok(d.(locator := l.(name := slot)))
    case Some(FullId) =>
      var id :- Parsed(attr, t.parseUuid(attr.value));
      var slot :- Fill(l.fullId, attr, id);
      Ok(d.(locator := l.(fullId := slot)))
    case Some(LocalId) =>
      var id :- Parsed(attr, ParseUnsigned(attr.value, 0xFFFF_FFFF));
      var slot :- Fill(l.localId, attr, id);
      Ok(d.(locator := l.(localId := slot)))
    case Some(Owner) =>
      var id :- Parsed(attr, t.parseUuid(attr.value));
      var slot :- Fill(l.owner, attr, id);
      Ok(d.(locator := l.(owner := slot)))
    case Some(Pcode) =>
      var code :- Parsed(attr, ParseUnsigned(attr.value, 0xFF));
      var slot :- Fill(l.pcode, attr, code);
      Ok(d.(locator := l.(pcode := slot)))
    case Some(HoverText) =>
      var slot :- Fill(l.hoverText, attr, MatcherOf(attr));
      Ok(d.(locator := l.(hoverText := slot)))
    case Some(NearTo) =>
      var anchor :- AnchorOf(t, attr);
      var slot :- Fill(d.near, attr, anchor);
      Ok(d.(near := slot))
    case Some(Radius) =>
      var metres :- Parsed(attr, t.parseFloat(attr.value));
      var slot :- Fill(d.radius, attr, metres);
      Ok(d.(radius := slot, radiusAt := Some(attr.at)))
    case Some(Nth) =>
      var index :- Parsed(attr, ParseUnsigned(attr.value, 0xFFFF_FFFF));
      var slot :- Fill(l.nth, attr, index);
      Ok(d.(locator := l.(nth := slot)))
    case None => Err(ErrorAt(attr.at, UnknownAttribute(attr.key)))
  }

  function Applier(t: Spelling): (Draft, Attr) -> Fallible<Draft> {
    (d, attr) => ApplyWorld(t, d, attr)
  }

  function Finished(d: Draft): Fallible<WorldLocator> {
    if d.near.Some? then Ok(d.locator.(near := Some(Near(d.near.value, d.radius))))
    else if d.radiusAt.Some? then Err(ErrorAt(d.radiusAt.value, RadiusNeedsNear))
    else Ok(d.locator.(near := None))
  }

  function WorldStep(t: Spelling, step: Step): Fallible<WorldLocator> {
    var kind :- match step.head
                case None => Ok(None)
                case Some(head) =>
                  match FindKind(head.0)
                  case None => Err(ErrorAt(head.1, UnknownHead(head.0)))
                  case Some(k) => Ok(Some(k));
    var d :- Applied(Applier(t), Draft(ANYTHING_THERE.(kind := kind), None, None, None), step.attrs);
    Finished(d)
  }

  function ParseWorld(t: Spelling, s: string): Fallible<WorldLocator> {
    var steps :- ReadSteps(s, 0, []);
    if |steps.0| != 1 then Err(ErrorAt(0, OneStepOnly)) else WorldStep(t, steps.0[0])
  }

  // ---------------------------------------------------------------------------------
  // Printing.

  const WORLD_ORDER: seq<WorldKey> :=
    [Own, WorldKey.Name, FullId, LocalId, Owner, Pcode, HoverText, NearTo, Radius, WorldKey.Nth]

  function AnchorText(t: Spelling, a: Anchor): string {
    match a
    case OwnAvatar => "own_avatar"
    case Point(x, y, z) => t.floatText(x) + "," + t.floatText(y) + "," + t.floatText(z)
  }

  function UuidItem(t: Spelling, key: string, id: Option<Uuid>): seq<Item> {
    PlainItem(key, if id.None? then None else Some(t.uuidText(id.value)))
  }

  function WorldItem(t: Spelling, l: WorldLocator, k: WorldKey): seq<Item> {
    match k
    case Own => BoolItem("own", l.own)
    case Name => MatchItem("name", l.name)
    case FullId => UuidItem(t, "full_id", l.fullId)
    case LocalId => NumberItem("local_id", l.localId)
    case Owner => UuidItem(t, "owner", l.owner)
    case Pcode => NumberItem("pcode", l.pcode)
    case HoverText => MatchItem("hover_text", l.hoverText)
    case NearTo => PlainItem("near", if l.near.None? then None else Some(AnchorText(t, l.near.value.to)))
    case Radius =>
      PlainItem("radius", if l.near.None? || l.near.value.radius.None? then None
                else Some(t.floatText(l.near.value.radius.value)))
    case Nth => NumberItem("nth", l.nth)
  }

  function WorldItems(t: Spelling, l: WorldLocator, keys: seq<WorldKey>): seq<Item>
    decreases |keys|, l, 0
  {
    if keys == [] then [] else WorldItemThen(t, l, keys[0], keys[1..])
  }

  function WorldItemThen(t: Spelling, l: WorldLocator, k: WorldKey, keys: seq<WorldKey>): seq<Item>
    decreases |keys|, l, 1
  {
    WorldItem(t, l, k) + WorldItems(t, l, keys)
  }

  function WorldHead(l: WorldLocator): string {
    if l.kind.Some? then KindName(l.kind.value) else if l == ANYTHING_THERE then "*" else ""
  }

  function WorldWritten(t: Spelling, l: WorldLocator): Written { Written(WorldHead(l), WorldItems(t, l, WORLD_ORDER)) }

  function PrintWorld(t: Spelling, l: WorldLocator): string { WorldWritten(t, l).Text() }

  // ---------------------------------------------------------------------------------
  // Every item written is readable.

  lemma PointReads(t: Spelling, x: string, y: string, z: string)
    requires IsBare(x) && IsBare(y) && IsBare(z)
    ensures Split(x + "," + y + "," + z, ',') == [x, y, z] && Trim(x) == x && Trim(y) == y && Trim(z) == z
    ensures IsPlain(x + "," + y + "," + z)
  {
    PlainIsNoSpace(x);
    PlainIsNoSpace(y);
    PlainIsNoSpace(z);
    TrimKeeps(x);
    TrimKeeps(y);
    TrimKeeps(z);
    assert ',' !in x && ',' !in y && ',' !in z by {
      assert !IsBareChar(',');
    }
    assert x + "," + y + "," + z == x + [','] + (y + [','] + z);
    SplitsFirst(x, ',', y + [','] + z);
    SplitsFirst(y, ',', z);
    SplitsNone(z, ',');
  }

  lemma AnchorReads(t: Spelling, a: Anchor, key: string, at: nat)
    requires Faithful(t) && AnchorIsNumber(a)
    ensures IsPlain(AnchorText(t, a)) && AnchorOf(t, Attr(key, Equals, AnchorText(t, a), at)) == Ok(a)
  {
    match a
    case OwnAvatar =>
    case Point(x, y, z) =>
      var tx, ty, tz := t.floatText(x), t.floatText(y), t.floatText(z);
      assert FloatFaithful(t, x) && FloatFaithful(t, y) && FloatFaithful(t, z);
      PointReads(t, tx, ty, tz);
      ParsesThree(t, tx, ty, tz, x, y, z);
      assert AnchorText(t, a)[|tx|] == ',' && "own_avatar"[..] != AnchorText(t, a) by {
        assert ',' in AnchorText(t, a) && ',' !in "own_avatar";
      }
  }

  lemma ParsesNext(t: Spelling, text: string, f: F32, rest: seq<string>, fs: seq<F32>)
    requires t.parseFloat(Trim(text)) == Some(f) && ParseAll(t, rest) == Some(fs)
    ensures ParseAll(t, [text] + rest) == Some([f] + fs)
  {
    assert ([text] + rest)[1..] == rest;
  }

  lemma ParsesThree(t: Spelling, tx: string, ty: string, tz: string, x: F32, y: F32, z: F32)
    requires t.parseFloat(tx) == Some(x) && t.parseFloat(ty) == Some(y) && t.parseFloat(tz) == Some(z)
    requires Trim(tx) == tx && Trim(ty) == ty && Trim(tz) == tz
    ensures ParseAll(t, [tx, ty, tz]) == Some([x, y, z])
  {
    ParsesNext(t, tz, z, [], []);
    ParsesNext(t, ty, y, [tz] + [], [z] + []);
    ParsesNext(t, tx, x, [ty] + ([tz] + []), [y] + ([z] + []));
    assert [tx, ty, tz] == [tx] + ([ty] + ([tz] + [])) && [x, y, z] == [x] + ([y] + ([z] + []));
  }

  lemma WorldItemWritable(t: Spelling, l: WorldLocator, k: WorldKey)
    requires Faithful(t) && IsNumber(l)
    ensures AllWritable(WorldItem(t, l, k))
  {
    match k
    case Own => BoolItemWritable("own", l.own);
    case Name => MatchItemWritable("name", l.name);
    case FullId =>
      if l.fullId.Some? { assert UuidFaithful(t, l.fullId.value); }
      PlainItemWritable("full_id", if l.fullId.None? then None else Some(t.uuidText(l.fullId.value)));
    case LocalId => NumberItemWritable("local_id", l.localId);
    case Owner =>
      if l.owner.Some? { assert UuidFaithful(t, l.owner.value); }
      PlainItemWritable("owner", if l.owner.None? then None else Some(t.uuidText(l.owner.value)));
    case Pcode => NumberItemWritable("pcode", l.pcode);
    case HoverText => MatchItemWritable("hover_text", l.hoverText);
    case NearTo =>
      if l.near.Some? { AnchorReads(t, l.near.value.to, "near", 0); }
      PlainItemWritable("near", if l.near.None? then None else Some(AnchorText(t, l.near.value.to)));
    case Radius =>
      var text := if l.near.None? || l.near.value.radius.None? then None
          else Some(t.floatText(l.near.value.radius.value));
      if text.Some? { assert FloatFaithful(t, l.near.value.radius.value); }
      PlainItemWritable("radius", text);
    case Nth => NumberItemWritable("nth", l.nth);
  }

  lemma {:induction false} WorldItemsWritable(t: Spelling, l: WorldLocator, keys: seq<WorldKey>)
    requires Faithful(t) && IsNumber(l)
    ensures AllWritable(WorldItems(t, l, keys))
  {
    if keys != [] {
      WorldItemWritable(t, l, keys[0]);
      WorldItemsWritable(t, l, keys[1..]);
      AllWritableJoins(WorldItem(t, l, keys[0]), WorldItems(t, l, keys[1..]));
    }
  }

  // ---------------------------------------------------------------------------------
  // Applying the attributes read back fills every slot.

  function DraftOf(l: WorldLocator): Draft {
    Draft(l.(near := None), if l.near.Some? then Some(l.near.value.to) else None,
          if l.near.Some? then l.near.value.radius else None, None)
  }

  const EMPTY_DRAFT := Draft(ANYTHING_THERE, None, None, None)

  /** `d` with the criterion `k` of `from`. */
  function TakingFrom(d: Draft, k: WorldKey, from: Draft): Draft {
    var l, f := d.locator, from.locator;
    match k
    case Own => d.(locator := l.(own := f.own))
    case Name => d.(locator := l.(name := f.name))
    case FullId => d.(locator := l.(fullId := f.fullId))
    case LocalId => d.(locator := l.(localId := f.localId))
    case Owner => d.(locator := l.(owner := f.owner))
    case Pcode => d.(locator := l.(pcode := f.pcode))
    case HoverText => d.(locator := l.(hoverText := f.hoverText))
    case NearTo => d.(near := from.near)
    case Radius => d.(radius := from.radius)
    case Nth => d.(locator := l.(nth := f.nth))
  }

  predicate Unset(d: Draft, k: WorldKey) { TakingFrom(d, k, EMPTY_DRAFT) == d }

  function Lacking(d: Draft, keys: seq<WorldKey>): Draft
    decreases |keys|, d
  {
    if keys == [] then d else TakingFrom(Lacking(d, keys[1..]), keys[0], EMPTY_DRAFT)
  }

  lemma {:induction false} LackingKeeps(d: Draft, keys: seq<WorldKey>, k: WorldKey)
    requires k !in keys
    ensures TakingFrom(Lacking(d, keys), k, d) == Lacking(d, keys)
  {
    if keys != [] {
      LackingKeeps(d, keys[1..], k);
    }
  }

  /** The same but for where the radius was given, which is known only if it was. */
  predicate Alike(d: Draft, e: Draft) {
    d == e.(radiusAt := d.radiusAt) && (d.radiusAt.Some? ==> d.radius.Some?)
  }

  function After(t: Spelling, l: WorldLocator, k: WorldKey, before: Draft, pos: nat): Fallible<Draft> {
    var item := WorldItem(t, l, k);
    if item == [] then Ok(before) else ApplyWorld(t, before, AttrAt(item[0], pos))
  }

  /** Reading back the criterion `k` of `l` sets it and nothing else. */
  ghost predicate Applies(t: Spelling, l: WorldLocator, k: WorldKey, before: Draft, pos: nat) {
    && |WorldItem(t, l, k)| <= 1
    && var r := After(t, l, k, before, pos); r.Ok? && Alike(r.value, TakingFrom(before, k, DraftOf(l)))
  }

  ghost predicate ReadyFor(t: Spelling, l: WorldLocator, k: WorldKey, before: Draft) {
    Faithful(t) && IsNumber(l) && Unset(before, k) && (before.radiusAt.Some? ==> before.radius.Some?)
  }

  lemma OwnApplies(t: Spelling, l: WorldLocator, before: Draft, pos: nat)
    requires ReadyFor(t, l, Own, before)
    ensures Applies(t, l, Own, before, pos)
  {
  }

  lemma NameApplies(t: Spelling, l: WorldLocator, before: Draft, pos: nat)
    requires ReadyFor(t, l, WorldKey.Name, before)
    ensures Applies(t, l, WorldKey.Name, before, pos)
  {
  }

  lemma FullIdApplies(t: Spelling, l: WorldLocator, before: Draft, pos: nat)
    requires ReadyFor(t, l, FullId, before)
    ensures Applies(t, l, FullId, before, pos)
  {
    if l.fullId.Some? { assert UuidFaithful(t, l.fullId.value); }
  }

  lemma LocalIdApplies(t: Spelling, l: WorldLocator, before: Draft, pos: nat)
    requires ReadyFor(t, l, LocalId, before)
    ensures Applies(t, l, LocalId, before, pos)
  {
    if l.localId.Some? { ParsesUnsigned(l.localId.value, 0xFFFF_FFFF); }
  }

  lemma OwnerApplies(t: Spelling, l: WorldLocator, before: Draft, pos: nat)
    requires ReadyFor(t, l, Owner, before)
    ensures Applies(t, l, Owner, before, pos)
  {
    if l.owner.Some? { assert UuidFaithful(t, l.owner.value); }
  }

  lemma PcodeApplies(t: Spelling, l: WorldLocator, before: Draft, pos: nat)
    requires ReadyFor(t, l, Pcode, before)
    ensures Applies(t, l, Pcode, before, pos)
  {
    if l.pcode.Some? { ParsesUnsigned(l.pcode.value, 0xFF); }
  }

  lemma HoverTextApplies(t: Spelling, l: WorldLocator, before: Draft, pos: nat)
    requires ReadyFor(t, l, HoverText, before)
    ensures Applies(t, l, HoverText, before, pos)
  {
  }

  lemma NearToApplies(t: Spelling, l: WorldLocator, before: Draft, pos: nat)
    requires ReadyFor(t, l, NearTo, before)
    ensures Applies(t, l, NearTo, before, pos)
  {
    if l.near.Some? { AnchorReads(t, l.near.value.to, "near", pos + 1); }
  }

  lemma RadiusApplies(t: Spelling, l: WorldLocator, before: Draft, pos: nat)
    requires ReadyFor(t, l, Radius, before)
    ensures Applies(t, l, Radius, before, pos)
  {
    if l.near.Some? && l.near.value.radius.Some? { assert FloatFaithful(t, l.near.value.radius.value); }
  }

  lemma NthApplies(t: Spelling, l: WorldLocator, before: Draft, pos: nat)
    requires ReadyFor(t, l, WorldKey.Nth, before)
    ensures Applies(t, l, WorldKey.Nth, before, pos)
  {
    if l.nth.Some? { ParsesUnsigned(l.nth.value, 0xFFFF_FFFF); }
  }

  lemma WorldItemApplies(t: Spelling, l: WorldLocator, k: WorldKey, before: Draft, pos: nat)
    requires ReadyFor(t, l, k, before)
    ensures Applies(t, l, k, before, pos)
  {
    match k
    case Own => OwnApplies(t, l, before, pos);
    case Name => NameApplies(t, l, before, pos);
    case FullId => FullIdApplies(t, l, before, pos);
    case LocalId => LocalIdApplies(t, l, before, pos);
    case Owner => OwnerApplies(t, l, before, pos);
    case Pcode => PcodeApplies(t, l, before, pos);
    case HoverText => HoverTextApplies(t, l, before, pos);
    case NearTo => NearToApplies(t, l, before, pos);
    case Radius => RadiusApplies(t, l, before, pos);
    case Nth => NthApplies(t, l, before, pos);
  }

  lemma AlikeAdvances(cur: Draft, after: Draft, x: Draft, k: WorldKey, d: Draft)
    requires Alike(cur, TakingFrom(x, k, EMPTY_DRAFT)) && Alike(after, TakingFrom(cur, k, d))
             && TakingFrom(x, k, d) == x
    ensures Unset(cur, k) && Alike(after, x)
  {
  }

  lemma AlikeIsReady(t: Spelling, l: WorldLocator, cur: Draft, x: Draft, k: WorldKey)
    requires Faithful(t) && IsNumber(l) && Alike(cur, TakingFrom(x, k, EMPTY_DRAFT))
    ensures ReadyFor(t, l, k, cur)
  {
  }

  lemma WorldItemsNext(t: Spelling, l: WorldLocator, keys: seq<WorldKey>, cur: Draft, pos: nat) returns (after: Draft)
    requires Faithful(t) && IsNumber(l) && keys != [] && DistinctKeys(keys) && Alike(cur, Lacking(DraftOf(l), keys))
    ensures |WorldItem(t, l, keys[0])| <= 1 && After(t, l, keys[0], cur, pos) == Ok(after)
    ensures Alike(after, Lacking(DraftOf(l), keys[1..]))
  {
    var k, x := keys[0], Lacking(DraftOf(l), keys[1..]);
    LackingKeeps(DraftOf(l), keys[1..], k);
    AlikeIsReady(t, l, cur, x, k);
    WorldItemApplies(t, l, k, cur, pos);
    after := After(t, l, k, cur, pos).value;
    AlikeAdvances(cur, after, x, k, DraftOf(l));
  }

  lemma {:induction false} WorldItemsApply(t: Spelling, l: WorldLocator, base: Draft, attrs: seq<Attr>, cur: Draft,
                                           keys: seq<WorldKey>,
                                           pos: nat, read: seq<Attr>)
    returns (d: Draft)
    requires Faithful(t) && IsNumber(l) && DistinctKeys(keys)
    requires Applied(Applier(t), base, attrs) == Ok(cur) && Alike(cur, Lacking(DraftOf(l), keys))
    requires read == ItemAttrs(attrs, WorldItems(t, l, keys), pos)
    ensures Applied(Applier(t), base, read) == Ok(d) && Alike(d, DraftOf(l))
    decreases |keys|
  {
    if keys == [] {
      d := cur;
    } else {
      var after := WorldItemsNext(t, l, keys, cur, pos);
      var a, p := AppliesNext(Applier(t), base, attrs, WorldItem(t, l, keys[0]), WorldItems(t, l, keys[1..]), pos, cur,
                              after);
      d := WorldItemsApply(t, l, base, a, after, keys[1..], p, read);
    }
  }

  lemma {:induction false} LackingClears(d: Draft, keys: seq<WorldKey>)
    ensures var w := Lacking(d, keys);
            w.locator.kind == d.locator.kind && w.locator.near == d.locator.near && w.radiusAt == d.radiusAt
    ensures forall k <- keys :: Unset(Lacking(d, keys), k)
  {
    if keys != [] {
      LackingClears(d, keys[1..]);
      forall k <- keys ensures Unset(Lacking(d, keys), k) {
        if k != keys[0] { assert k in keys[1..]; }
      }
    }
  }

  lemma WorldOrderIsAll()
    ensures Own in WORLD_ORDER && WorldKey.Name in WORLD_ORDER && FullId in WORLD_ORDER && LocalId in WORLD_ORDER
    ensures Owner in WORLD_ORDER && Pcode in WORLD_ORDER && HoverText in WORLD_ORDER && NearTo in WORLD_ORDER
    ensures Radius in WORLD_ORDER && WorldKey.Nth in WORLD_ORDER
  {
    assert WORLD_ORDER[0] == Own && WORLD_ORDER[1] == WorldKey.Name && WORLD_ORDER[2] == FullId
           && WORLD_ORDER[3] == LocalId;
    assert WORLD_ORDER[4] == Owner && WORLD_ORDER[5] == Pcode && WORLD_ORDER[6] == HoverText
           && WORLD_ORDER[7] == NearTo;
    assert WORLD_ORDER[8] == Radius && WORLD_ORDER[9] == WorldKey.Nth;
  }

  lemma EmptyIfUnset(w: Draft)
    requires Unset(w, Own) && Unset(w, WorldKey.Name) && Unset(w, FullId) && Unset(w, LocalId) && Unset(w, Owner)
    requires Unset(w, Pcode) && Unset(w, HoverText) && Unset(w, NearTo) && Unset(w, Radius) && Unset(w, WorldKey.Nth)
    requires w.locator.near.None? && w.radiusAt.None?
    ensures w == EMPTY_DRAFT.(locator := ANYTHING_THERE.(kind := w.locator.kind))
  {
  }

  lemma NothingThereLeft(l: WorldLocator)
    ensures Lacking(DraftOf(l), WORLD_ORDER) == EMPTY_DRAFT.(locator := ANYTHING_THERE.(kind := l.kind))
  {
    LackingClears(DraftOf(l), WORLD_ORDER);
    WorldOrderIsAll();
    EmptyIfUnset(Lacking(DraftOf(l), WORLD_ORDER));
  }

  lemma WorldTailIsDistinct()
    ensures DistinctKeys(WORLD_ORDER[4..])
  {
    assert WORLD_ORDER[4..] == [Owner, Pcode, HoverText, NearTo, Radius, WorldKey.Nth];
    assert WORLD_ORDER[5..] == [Pcode, HoverText, NearTo, Radius, WorldKey.Nth];
    assert WORLD_ORDER[6..] == [HoverText, NearTo, Radius, WorldKey.Nth];
    assert WORLD_ORDER[7..] == [NearTo, Radius, WorldKey.Nth];
    assert DistinctKeys([Radius, WorldKey.Nth]) && DistinctKeys(WORLD_ORDER[7..]);
    assert DistinctKeys(WORLD_ORDER[6..]);
    assert DistinctKeys(WORLD_ORDER[5..]);
  }

  lemma WorldMiddleIsDistinct()
    ensures DistinctKeys(WORLD_ORDER[2..])
  {
    WorldTailIsDistinct();
    assert WORLD_ORDER[3..][1..] == WORLD_ORDER[4..] && WORLD_ORDER[3..][0] == LocalId;
    assert WORLD_ORDER[2..][1..] == WORLD_ORDER[3..] && WORLD_ORDER[2..][0] == FullId;
  }

  lemma WorldOrderIsDistinct()
    ensures DistinctKeys(WORLD_ORDER)
  {
    WorldMiddleIsDistinct();
    assert WORLD_ORDER[1..][1..] == WORLD_ORDER[2..] && WORLD_ORDER[1..][0] == WorldKey.Name;
  }

  lemma {:induction false} NothingThereWritten(t: Spelling, l: WorldLocator, keys: seq<WorldKey>)
    requires Faithful(t) && IsNumber(l) && WorldItems(t, l, keys) == []
    ensures Lacking(DraftOf(l), keys) == DraftOf(l)
  {
    if keys != [] {
      NothingThereWritten(t, l, keys[1..]);
      assert WorldItem(t, l, keys[0]) == [];
      WorldItemApplies(t, l, keys[0], TakingFrom(DraftOf(l), keys[0], EMPTY_DRAFT), 0);
    }
  }

  // ---------------------------------------------------------------------------------
  // Reading the whole print.

  lemma WorldHeadIsIdent(l: WorldLocator)
    ensures WorldHead(l) == "*" || IsIdent(WorldHead(l))
    ensures WorldHead(l) == "" ==> l.kind.None? && l != ANYTHING_THERE
  {
  }

  lemma NothingWritten(t: Spelling, l: WorldLocator)
    requires Faithful(t) && IsNumber(l) && l.kind.None? && WorldItems(t, l, WORLD_ORDER) == []
    ensures l == ANYTHING_THERE
  {
    NothingThereWritten(t, l, WORLD_ORDER);
    NothingThereLeft(l);
    assert DraftOf(l).locator == ANYTHING_THERE && l.near.None?;
  }

  lemma WorldWrittenOk(t: Spelling, l: WorldLocator)
    requires Faithful(t) && IsNumber(l)
    ensures WorldWritten(t, l).Ok()
  {
    WorldHeadIsIdent(l);
    var items := WorldItems(t, l, WORLD_ORDER);
    if l.kind.None? && items == [] { NothingWritten(t, l); }
    WorldItemsWritable(t, l, WORLD_ORDER);
    WrittenIsOk(WorldHead(l), items);
  }

  lemma FinishedIs(d: Draft, l: WorldLocator)
    requires Alike(d, DraftOf(l))
    ensures Finished(d) == Ok(l)
  {
  }

  lemma WorldStepFills(t: Spelling, step: Step, l: WorldLocator, d: Draft)
    requires if l.kind.Some? then step.head.Some? && FindKind(step.head.value.0) == l.kind else step.head.None?
    requires Applied(Applier(t), Draft(ANYTHING_THERE.(kind := l.kind), None, None, None), step.attrs) == Ok(d)
    requires Finished(d) == Ok(l)
    ensures WorldStep(t, step) == Ok(l)
  {
  }

  lemma WorldCriteriaRead(t: Spelling, l: WorldLocator, step: Step, at: nat, attrs: seq<Attr>)
    requires Faithful(t) && IsNumber(l) && step.attrs == attrs
    requires if l.kind.Some? then step.head.Some? && FindKind(step.head.value.0) == l.kind else step.head.None?
    requires attrs == ItemAttrs([], WorldItems(t, l, WORLD_ORDER), at)
    ensures WorldStep(t, step) == Ok(l)
  {
    NothingThereLeft(l);
    WorldOrderIsDistinct();
    var base := Draft(ANYTHING_THERE.(kind := l.kind), None, None, None);
    var d := WorldItemsApply(t, l, base, [], base, WORLD_ORDER, at, attrs);
    FinishedIs(d, l);
    WorldStepFills(t, step, l, d);
  }

  lemma KindFound(l: WorldLocator, pos: nat)
    ensures var head := HeadOf(WorldHead(l), pos);
            if l.kind.Some? then head.Some? && FindKind(head.value.0) == l.kind else head.None?
  {
  }

  lemma ReadGives(written: Written, pos: nat, at: nat, attrs: seq<Attr>)
    requires at == pos + |written.head| && attrs == ItemAttrs([], written.items, at)
    ensures written.Read(pos) == Step(HeadOf(written.head, pos), attrs)
  {
  }

  lemma WorldStepIs(t: Spelling, l: WorldLocator, pos: nat, at: nat) returns (attrs: seq<Attr>)
    requires at == pos + |WorldHead(l)|
    ensures attrs == ItemAttrs([], WorldItems(t, l, WORLD_ORDER), at)
    ensures WorldWritten(t, l).Read(pos) == Step(HeadOf(WorldHead(l), pos), attrs)
  {
    var written := WorldWritten(t, l);
    attrs := ItemAttrs([], written.items, at);
    ReadGives(written, pos, at, attrs);
  }

  lemma WorldStepReads(t: Spelling, l: WorldLocator, pos: nat)
    requires Faithful(t) && IsNumber(l)
    ensures WorldStep(t, WorldWritten(t, l).Read(pos)) == Ok(l)
  {
    var at := pos + |WorldHead(l)|;
    var attrs := WorldStepIs(t, l, pos, at);
    KindFound(l, pos);
    WorldCriteriaRead(t, l, Step(HeadOf(WorldHead(l), pos), attrs), at, attrs);
  }

  /** If no number in it is NaN, the print of a world locator reads as that locator. */
  lemma PrintedWorldParses(t: Spelling, l: WorldLocator)
    requires Faithful(t) && IsNumber(l)
    ensures ParseWorld(t, PrintWorld(t, l)) == Ok(l)
  {
    var s, written := PrintWorld(t, l), WorldWritten(t, l);
    WorldWrittenOk(t, l);
    NextItself(s);
    WrittenReads(s, 0, 0, written, [], |s|, ReadSteps(s, 0, []));
    assert [] + [written.Read(0)] == [written.Read(0)];
    WorldStepReads(t, l, 0);
  }

  lemma PrintingWorldsIsInjective(t: Spelling, a: WorldLocator, b: WorldLocator)
    requires Faithful(t) && IsNumber(a) && IsNumber(b) && PrintWorld(t, a) == PrintWorld(t, b)
    ensures a == b
  {
    PrintedWorldParses(t, a);
    PrintedWorldParses(t, b);
  }

  // ---------------------------------------------------------------------------------
  // Errors name a column of the selector, or the one after it.

  lemma ApplyWorldErrs(t: Spelling, d: Draft, attr: Attr)
    ensures var r := ApplyWorld(t, d, attr);
            if r.Err? then r.error.column == attr.at + 1
                else r.value.radiusAt == d.radiusAt || r.value.radiusAt == Some(attr.at)
  {
  }

  lemma {:induction false} WorldAppliedErrs(t: Spelling, s: string, base: Draft, attrs: seq<Attr>)
    requires base.radiusAt.None? && forall k | 0 <= k < |attrs| :: attrs[k].at <= |s|
    ensures var r := Applied(Applier(t), base, attrs);
            if r.Err? then ColumnOf(s, r.error) else r.value.radiusAt.Some? ==> r.value.radiusAt.value <= |s|
  {
    if attrs != [] {
      var n := |attrs| - 1;
      WorldAppliedErrs(t, s, base, attrs[..n]);
      var front := Applied(Applier(t), base, attrs[..n]);
      if front.Ok? { ApplyWorldErrs(t, front.value, attrs[n]); }
    }
  }

  lemma WorldStepErrs(t: Spelling, s: string, step: Step)
    requires StepInBounds(s, step)
    ensures WorldStep(t, step).Err? ==> ColumnOf(s, WorldStep(t, step).error)
  {
    forall k | 0 <= k < |step.attrs| ensures step.attrs[k].at <= |s| { assert step.attrs[k] in step.attrs; }
    var kind := if step.head.None? then None else FindKind(step.head.value.0);
    WorldAppliedErrs(t, s, Draft(ANYTHING_THERE.(kind := kind), None, None, None), step.attrs);
  }

  lemma WorldErrorColumnIsInside(t: Spelling, s: string)
    ensures ParseWorld(t, s).Err? ==> ColumnOf(s, ParseWorld(t, s).error)
  {
    var r := ReadSteps(s, 0, []);
    ReadStepsInside(s, 0, []);
    if r.Ok? && |r.value.0| == 1 { WorldStepErrs(t, s, r.value.0[0]); }
  }
}

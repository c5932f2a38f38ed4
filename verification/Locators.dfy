/**
 UI locators: how one prints in the selector grammar, in a fixed order of criteria, and how a selector is read as one.
 */
module Locators {
  import opened SelectorGrammar
  import opened SelectorText
  import opened Sequences
  import opened Wrappers

  datatype Role =
    | Button | Checkbox | Radio | RadioGroup | Textbox | Combobox | Slider | SpinButton | ColorWell | Trackball
    | TabList | Tab | MenuBar | Menu | MenuItem | List | ListItem | Tree | TreeItem | Window | Text | Image | Document
    | Group

  function RoleName(r: Role): string {
    match r
    case Button => "button"
    case Checkbox => "checkbox"
    case Radio => "radio"
    case RadioGroup => "radiogroup"
    case Textbox => "textbox"
    case Combobox => "combobox"
    case Slider => "slider"
    case SpinButton => "spinbutton"
    case ColorWell => "colorwell"
    case Trackball => "trackball"
    case TabList => "tablist"
    case Tab => "tab"
    case MenuBar => "menubar"
    case Menu => "menu"
    case MenuItem => "menuitem"
    case List => "list"
    case ListItem => "listitem"
    case Tree => "tree"
    case TreeItem => "treeitem"
    case Window => "window"
    case Text => "text"
    case Image => "image"
    case Document => "document"
    case Group => "group"
  }

  const ALL_ROLES: seq<Role> := [
    Button, Checkbox, Radio, RadioGroup, Textbox, Combobox, Slider, SpinButton, ColorWell, Trackball,
    TabList, Tab, MenuBar, Menu, MenuItem, List, ListItem, Tree, TreeItem, Window, Text, Image, Document, Group]

  /** The first of `roles` that is spelled `name`. */
  function FindRole(roles: seq<Role>, name: string): Option<Role>
    decreases |roles|, name
  {
    if roles == [] then None else if RoleName(roles[0]) == name then Some(roles[0]) else FindRole(roles[1..], name)
  }

  datatype NameMatcher = Exact(text: string) | Contains(text: string)

  datatype Flag = Enabled | Checked | Selected | Expanded | Focused

  type U32 = n: nat | n <= 0xFFFF_FFFF

  datatype Locator = Locator(
    role: Option<Role>, name: Option<NameMatcher>, nameKey: Option<string>, testId: Option<string>,
    within: Option<Locator>, nth: Option<U32>,
    enabled: Option<bool>, checked: Option<bool>, selected: Option<bool>, expanded: Option<bool>, focused: Option<bool>)
  {
    function Wanted(f: Flag): Option<bool> {
      match f
      case Enabled => enabled
      case Checked => checked
      case Selected => selected
      case Expanded => expanded
      case Focused => focused
    }

    function With(f: Flag, b: Option<bool>): Locator {
      match f
      case Enabled => this.(enabled := b)
      case Checked => this.(checked := b)
      case Selected => this.(selected := b)
      case Expanded => this.(expanded := b)
      case Focused => this.(focused := b)
    }
  }

  const ANYTHING := Locator(None, None, None, None, None, None, None, None, None, None, None)

  // ---------------------------------------------------------------------------------
  // Filling the slots of a locator from the attributes of a step.

  type Fallible<T> = Result<T, SelectorError>

  /** The value, refusing `~=`. */
  function Whole(attr: Attr): Fallible<string> {
    if attr.op.Equals? then Ok(attr.value) else Err(ErrorAt(attr.at, TakesEquals(attr.key)))
  }

  /** The value as `parsed`, the result of parsing it. */
  function Parsed<T>(attr: Attr, parsed: Option<T>): Fallible<T> {
    var _ :- Whole(attr);
    match parsed
    case None => Err(ErrorAt(attr.at, Wants(attr.key, attr.value)))
    case Some(value) => Ok(value)
  }

  /** Puts `value` into the slot of `attr`; a slot that is filled already makes it an error. */
  function Fill<T>(slot: Option<T>, attr: Attr, value: T): Fallible<Option<T>> {
    if slot.Some? then Err(ErrorAt(attr.at, GivenTwice(attr.key))) else Ok(Some(value))
  }

  function MatcherOf(attr: Attr): NameMatcher {
    match attr.op
    case Equals => NameMatcher.Exact(attr.value)
    case Contains => NameMatcher.Contains(attr.value)
  }

  datatype UiKey = Name | NameKey | TestId | State(flag: Flag) | Nth

  function UiKeyOf(key: string): Option<UiKey> {
    if key == "name" then Some(Name)
    else if key == "name_key" then Some(NameKey)
    else if key == "test_id" then Some(TestId)
    else if key == "enabled" then Some(State(Enabled))
    else if key == "checked" then Some(State(Checked))
    else if key == "selected" then Some(State(Selected))
    else if key == "expanded" then Some(State(Expanded))
    else if key == "focused" then Some(State(Focused))
    else if key == "nth" then Some(Nth)
    else None
  }

  function FlagText(f: Flag): string {
    match f
    case Enabled => "enabled"
    case Checked => "checked"
    case Selected => "selected"
    case Expanded => "expanded"
    case Focused => "focused"
  }

  function ApplyUi(l: Locator, attr: Attr): Fallible<Locator> {
    match UiKeyOf(attr.key)
    case Some(Name) =>
      var slot :- Fill(l.name, attr, MatcherOf(attr));
      Ok(l.(name := slot))
    case Some(NameKey) =>
      var key :- Whole(attr);
      var slot :- Fill(l.nameKey, attr, key);
      Ok(l.(nameKey := slot))
    case Some(TestId) =>
      var id :- Whole(attr);
      var slot :- Fill(l.testId, attr, id);
      Ok(l.(testId := slot))
    case Some(State(f)) =>
      var wanted :- Parsed(attr, ParseBool(attr.value));
      var slot :- Fill(l.Wanted(f), attr, wanted);
      Ok(l.With(f, slot))
    case Some(Nth) =>
      var index :- Parsed(attr, ParseUnsigned(attr.value, 0xFFFF_FFFF));
      var slot :- Fill(l.nth, attr, index);
      Ok(l.(nth := slot))
    case None => Err(ErrorAt(attr.at, UnknownAttribute(attr.key)))
  }

  /** Applies the attributes one after another, up to the first that fails. */
  function Applied<L>(apply: (L, Attr) -> Fallible<L>, base: L, attrs: seq<Attr>): Fallible<L> {
    if attrs == [] then Ok(base)
    else
      var l :- Applied(apply, base, attrs[..|attrs| - 1]);
      apply(l, attrs[|attrs| - 1])
  }

  function UiStep(step: Step): Fallible<Locator> {
    match step.head
    case None => Applied(ApplyUi, ANYTHING, step.attrs)
    case Some(head) =>
      match FindRole(ALL_ROLES, head.0)
      case None => Err(ErrorAt(head.1, UnknownHead(head.0)))
      case Some(role) => Applied(ApplyUi, ANYTHING.(role := Some(role)), step.attrs)
  }

  /** The locators of `steps`, each with those before it as its scope. */
  function Nested(steps: seq<Step>): Fallible<Option<Locator>> {
    if steps == [] then Ok(None)
    else
      var scope :- Nested(steps[..|steps| - 1]);
      var own :- UiStep(steps[|steps| - 1]);
      Ok(Some(if scope.Some? then own.(within := scope) else own))
  }

  function ParseLocator(s: string): Fallible<Locator> {
    var steps :- ReadSteps(s, 0, []);
    var locator :- Nested(steps.0);
    if locator.None? then Err(ErrorAt(0, EmptySelector)) else Ok(locator.value)
  }

  // ---------------------------------------------------------------------------------
  // Printing.

  function TextItem(key: string, value: Option<string>): seq<Item> {
    if value.None? then [] else [Bracketed(key, Equals, value.value, WriteValue(value.value))]
  }

  function MatchItem(key: string, matcher: Option<NameMatcher>): seq<Item> {
    match matcher
    case None => []
    case Some(Exact(text)) => [Bracketed(key, Equals, text, WriteValue(text))]
    case Some(Contains(text)) => [Bracketed(key, Op.Contains, text, WriteValue(text))]
  }

  /** An attribute whose text needs no quotes. */
  function PlainItem(key: string, text: Option<string>): seq<Item> {
    if text.None? then [] else [Bracketed(key, Equals, text.value, text.value)]
  }

  function BoolItem(key: string, value: Option<bool>): seq<Item> {
    PlainItem(key, if value.None? then None else Some(BoolText(value.value)))
  }

  function NumberItem(key: string, value: Option<nat>): seq<Item> {
    PlainItem(key, if value.None? then None else Some(Numeral(value.value, 10)))
  }

  /** The order in which the criteria are written. */
  const UI_ORDER: seq<UiKey> :=
    [TestId, NameKey, Name, State(Enabled), State(Checked), State(Selected), State(Expanded), State(Focused), Nth]

  function UiItem(l: Locator, k: UiKey): seq<Item> {
    match k
    case TestId => TextItem("test_id", l.testId)
    case NameKey => TextItem("name_key", l.nameKey)
    case Name => MatchItem("name", l.name)
    case State(f) => BoolItem(FlagText(f), l.Wanted(f))
    case Nth => NumberItem("nth", l.nth)
  }

  function UiItems(l: Locator, keys: seq<UiKey>): seq<Item>
    decreases |keys|, l, 0
  {
    if keys == [] then [] else UiItemThen(l, keys[0], keys[1..])
  }

  function UiItemThen(l: Locator, k: UiKey, keys: seq<UiKey>): seq<Item>
    decreases |keys|, l, 1
  {
    UiItem(l, k) + UiItems(l, keys)
  }

  /** The locator's own criteria, without its scope. */
  function Own(l: Locator): Locator { l.(within := None) }

  predicate NamesNothing(l: Locator) { Own(l) == ANYTHING }

  function HeadText(role: Option<Role>, nothing: bool): string {
    if role.Some? then RoleName(role.value) else if nothing then "*" else ""
  }

  function UiWritten(l: Locator): Written { Written(HeadText(l.role, NamesNothing(l)), UiItems(Own(l), UI_ORDER)) }

  /** The scope first. */
  function PrintLocator(l: Locator): string {
    (if l.within.Some? then PrintLocator(l.within.value) + " >> " else "") + UiWritten(l).Text()
  }

  // ---------------------------------------------------------------------------------
  // Every item written is readable.

  lemma {:induction false} AllWritableJoins(a: seq<Item>, b: seq<Item>)
    requires AllWritable(a) && AllWritable(b)
    ensures AllWritable(a + b)
  {
    if a == [] {
      assert a + b == b;
    } else {
      AllWritableJoins(a[1..], b);
      assert (a + b)[1..] == a[1..] + b;
    }
  }

  lemma TextItemWritable(key: string, value: Option<string>)
    requires key != "" && IsIdent(key)
    ensures AllWritable(TextItem(key, value))
  {
    if value.Some? {
      WriteValueRenders(value.value);
      BracketedIsWritable(key, Equals, value.value, WriteValue(value.value));
    }
  }

  lemma MatchItemWritable(key: string, matcher: Option<NameMatcher>)
    requires key != "" && IsIdent(key)
    ensures AllWritable(MatchItem(key, matcher))
  {
    if matcher.Some? {
      var item := MatchItem(key, matcher)[0];
      WriteValueRenders(matcher.value.text);
      BracketedIsWritable(key, item.op, matcher.value.text, WriteValue(matcher.value.text));
    }
  }

  lemma PlainItemWritable(key: string, text: Option<string>)
    requires key != "" && IsIdent(key) && (text.Some? ==> IsPlain(text.value))
    ensures AllWritable(PlainItem(key, text))
  {
    if text.Some? {
      PlainRenders(text.value);
      BracketedIsWritable(key, Equals, text.value, text.value);
    }
  }

  lemma BoolItemWritable(key: string, value: Option<bool>)
    requires key != "" && IsIdent(key)
    ensures AllWritable(BoolItem(key, value))
  {
    PlainItemWritable(key, if value.None? then None else Some(BoolText(value.value)));
  }

  lemma NumberItemWritable(key: string, value: Option<nat>)
    requires key != "" && IsIdent(key)
    ensures AllWritable(NumberItem(key, value))
  {
    if value.Some? { NumeralReads(value.value, 10); }
    PlainItemWritable(key, if value.None? then None else Some(Numeral(value.value, 10)));
  }

  lemma UiItemWritable(l: Locator, k: UiKey)
    ensures AllWritable(UiItem(l, k))
  {
    match k
    case TestId => TextItemWritable("test_id", l.testId);
    case NameKey => TextItemWritable("name_key", l.nameKey);
    case Name => MatchItemWritable("name", l.name);
    case State(f) => BoolItemWritable(FlagText(f), l.Wanted(f));
    case Nth => NumberItemWritable("nth", l.nth);
  }

  lemma {:induction false} UiItemsWritable(l: Locator, keys: seq<UiKey>)
    ensures AllWritable(UiItems(l, keys))
  {
    if keys != [] {
      UiItemWritable(l, keys[0]);
      UiItemsWritable(l, keys[1..]);
      AllWritableJoins(UiItem(l, keys[0]), UiItems(l, keys[1..]));
    }
  }

  // ---------------------------------------------------------------------------------
  // Applying the attributes read back fills every slot.

  /** One optional item at a time. */
  lemma AppliesNext<L>(apply: (L, Attr) -> Fallible<L>, base: L, attrs: seq<Attr>, item: seq<Item>, rest: seq<Item>,
                       pos: nat,
                       before: L, after: L) returns (attrs': seq<Attr>, pos': nat)
    requires Applied(apply, base, attrs) == Ok(before) && |item| <= 1
    requires if item == [] then after == before else apply(before, AttrAt(item[0], pos)) == Ok(after)
    ensures ItemAttrs(attrs, item + rest, pos) == ItemAttrs(attrs', rest, pos')
    ensures Applied(apply, base, attrs') == Ok(after)
  {
    if item == [] {
      attrs', pos' := attrs, pos;
      assert item + rest == rest;
    } else {
      attrs', pos' := attrs + [AttrAt(item[0], pos)], pos + |item[0].text|;
      assert (item + rest)[0] == item[0] && (item + rest)[1..] == rest;
      assert attrs'[..|attrs|] == attrs;
    }
  }

  predicate IsFree(l: Locator, k: UiKey) {
    match k
    case TestId => l.testId.None?
    case NameKey => l.nameKey.None?
    case Name => l.name.None?
    case State(f) => l.Wanted(f).None?
    case Nth => l.nth.None?
  }

  /** `l` with the criterion `k` of `from`. */
  function Taking(l: Locator, k: UiKey, from: Locator): Locator {
    match k
    case TestId => l.(testId := from.testId)
    case NameKey => l.(nameKey := from.nameKey)
    case Name => l.(name := from.name)
    case State(f) => l.With(f, from.Wanted(f))
    case Nth => l.(nth := from.nth)
  }

  /** `l` without the criteria `keys`. */
  function Without(l: Locator, keys: seq<UiKey>): Locator
    decreases |keys|, l
  {
    if keys == [] then l else Taking(Without(l, keys[1..]), keys[0], ANYTHING)
  }

  lemma {:induction false} WithoutKeeps(l: Locator, keys: seq<UiKey>, k: UiKey)
    requires k !in keys
    ensures Taking(Without(l, keys), k, l) == Without(l, keys)
  {
    if keys != [] {
      WithoutKeeps(l, keys[1..], k);
    }
  }

  lemma UiItemApplies(l: Locator, k: UiKey, before: Locator, pos: nat)
    requires IsFree(before, k)
    ensures var item := UiItem(l, k);
            |item| <= 1
            && if item == [] then Taking(before, k, l) == before
                else ApplyUi(before, AttrAt(item[0], pos)) == Ok(Taking(before, k, l))
  {
    match k
    case State(f) =>
      assert UiKeyOf(FlagText(f)) == Some(State(f));
    case Nth =>
      if l.nth.Some? { ParsesUnsigned(l.nth.value, 0xFFFF_FFFF); }
    case TestId =>
    case NameKey =>
    case Name =>
  }

  predicate DistinctKeys<K(==)>(keys: seq<K>) { keys == [] || (keys[0] !in keys[1..] && DistinctKeys(keys[1..])) }

  lemma UiItemsNext(l: Locator, keys: seq<UiKey>, before: Locator, after: Locator, pos: nat)
    requires keys != [] && DistinctKeys(keys) && before == Without(l, keys) && after == Without(l, keys[1..])
    ensures var item := UiItem(l, keys[0]);
            |item| <= 1 && if item == [] then after == before else ApplyUi(before, AttrAt(item[0], pos)) == Ok(after)
  {
    WithoutKeeps(l, keys[1..], keys[0]);
    assert Taking(before, keys[0], l) == after;
    UiItemApplies(l, keys[0], before, pos);
  }

  /** Reading back the criteria `keys` adds them to a locator that has all the others. */
  lemma {:induction false} UiItemsApply(base: Locator, attrs: seq<Attr>, l: Locator, keys: seq<UiKey>, pos: nat,
                                        read: seq<Attr>)
    requires DistinctKeys(keys) && Applied(ApplyUi, base, attrs) == Ok(Without(l, keys))
    requires read == ItemAttrs(attrs, UiItems(l, keys), pos)
    ensures Applied(ApplyUi, base, read) == Ok(l)
    decreases |keys|
  {
    if keys != [] {
      var before, after := Without(l, keys), Without(l, keys[1..]);
      UiItemsNext(l, keys, before, after, pos);
      var a, p := AppliesNext(ApplyUi, base, attrs, UiItem(l, keys[0]), UiItems(l, keys[1..]), pos, before, after);
      UiItemsApply(base, a, l, keys[1..], p, read);
    }
  }

  lemma {:induction false} WithoutClears(l: Locator, keys: seq<UiKey>)
    ensures var w := Without(l, keys); w.role == l.role && w.within == l.within && forall k <- keys :: IsFree(w, k)
  {
    if keys != [] {
      WithoutClears(l, keys[1..]);
      forall k <- keys ensures IsFree(Without(l, keys), k) {
        if k != keys[0] { assert k in keys[1..]; }
      }
    }
  }

  lemma NothingLeft(l: Locator)
    ensures Without(Own(l), UI_ORDER) == ANYTHING.(role := l.role)
  {
    var w := Without(Own(l), UI_ORDER);
    WithoutClears(Own(l), UI_ORDER);
    assert UI_ORDER[0] == TestId && UI_ORDER[1] == NameKey && UI_ORDER[2] == Name && UI_ORDER[8] == Nth;
    assert UI_ORDER[3] == State(Enabled) && UI_ORDER[4] == State(Checked) && UI_ORDER[5] == State(Selected);
    assert UI_ORDER[6] == State(Expanded) && UI_ORDER[7] == State(Focused);
    assert forall k <- UI_ORDER :: IsFree(w, k);
    assert IsFree(w, TestId) && IsFree(w, NameKey) && IsFree(w, Name) && IsFree(w, Nth);
    assert IsFree(w, State(Enabled)) && IsFree(w, State(Checked)) && IsFree(w, State(Selected));
    assert IsFree(w, State(Expanded)) && IsFree(w, State(Focused));
  }

  lemma StatesAreDistinct()
    ensures DistinctKeys(UI_ORDER[3..])
  {
    assert UI_ORDER[3..] == [State(Enabled), State(Checked), State(Selected), State(Expanded), State(Focused), Nth];
    assert UI_ORDER[4..] == [State(Checked), State(Selected), State(Expanded), State(Focused), Nth];
    assert UI_ORDER[5..] == [State(Selected), State(Expanded), State(Focused), Nth];
    assert UI_ORDER[6..] == [State(Expanded), State(Focused), Nth];
    assert DistinctKeys([State(Focused), Nth]) && DistinctKeys(UI_ORDER[6..]);
  }

  lemma OrderIsDistinct()
    ensures DistinctKeys(UI_ORDER)
  {
    StatesAreDistinct();
    assert UI_ORDER[2..][1..] == UI_ORDER[3..] && UI_ORDER[2..][0] == Name;
    assert UI_ORDER[1..][1..] == UI_ORDER[2..] && UI_ORDER[1..][0] == NameKey;
  }

  // ---------------------------------------------------------------------------------
  // Reading the whole print.

  lemma RoleNameIsIdent(r: Role)
    ensures RoleName(r) != "" && RoleName(r) != "*" && IsIdent(RoleName(r))
  {
  }

  lemma RoleNamesDiffer(a: Role, b: Role)
    requires RoleName(a) == RoleName(b)
    ensures a == b
  {
  }

  lemma {:induction false} RoleFoundIn(roles: seq<Role>, r: Role)
    requires r in roles
    ensures FindRole(roles, RoleName(r)) == Some(r)
  {
    if RoleName(roles[0]) == RoleName(r) {
      RoleNamesDiffer(roles[0], r);
    } else {
      RoleFoundIn(roles[1..], r);
    }
  }

  lemma RoleFound(r: Role)
    ensures FindRole(ALL_ROLES, RoleName(r)) == Some(r)
  {
    RoleFoundIn(ALL_ROLES, r);
  }

  lemma {:induction false} NothingWritten(l: Locator, keys: seq<UiKey>)
    requires UiItems(l, keys) == []
    ensures Without(l, keys) == l
  {
    if keys != [] {
      NothingWritten(l, keys[1..]);
      UiItemApplies(l, keys[0], Taking(l, keys[0], ANYTHING), 0);
    }
  }

  lemma WrittenOk(l: Locator)
    ensures UiWritten(l).Ok()
  {
    UiItemsWritable(Own(l), UI_ORDER);
    if l.role.Some? {
      RoleNameIsIdent(l.role.value);
    } else if UiItems(Own(l), UI_ORDER) == [] {
      NothingWritten(Own(l), UI_ORDER);
      NothingLeft(l);
    }
  }

  /** Wherever the head `head` stands, it is read as `role`. */
  ghost predicate ReadsAs(head: string, role: Option<Role>) {
    if role.Some? then head != "" && head != "*" && FindRole(ALL_ROLES, head) == role else head == "" || head == "*"
  }

  lemma HeadReadsAs(role: Option<Role>, nothing: bool)
    ensures ReadsAs(HeadText(role, nothing), role)
  {
    if role.Some? {
      RoleFound(role.value);
      RoleNameIsIdent(role.value);
    }
  }

  lemma StepFills(head: Option<(string, nat)>, attrs: seq<Attr>, role: Option<Role>, own: Locator)
    requires if role.Some? then head.Some? && FindRole(ALL_ROLES, head.value.0) == role else head.None?
    requires Applied(ApplyUi, ANYTHING.(role := role), attrs) == Ok(own)
    ensures UiStep(Step(head, attrs)) == Ok(own)
  {
    if role.None? { assert ANYTHING.(role := role) == ANYTHING; }
  }

  lemma CriteriaRead(step: Step, at: nat, role: Option<Role>, own: Locator, keys: seq<UiKey>)
    requires if role.Some? then step.head.Some? && FindRole(ALL_ROLES, step.head.value.0) == role else step.head.None?
    requires DistinctKeys(keys) && Without(own, keys) == ANYTHING.(role := role)
    requires step.attrs == ItemAttrs([], UiItems(own, keys), at)
    ensures UiStep(step) == Ok(own)
  {
    UiItemsApply(ANYTHING.(role := role), [], own, keys, at, step.attrs);
    StepFills(step.head, step.attrs, role, own);
  }

  lemma WrittenCriteriaRead(w: Written, pos: nat, role: Option<Role>, own: Locator, keys: seq<UiKey>)
    requires ReadsAs(w.head, role) && w.items == UiItems(own, keys)
    requires DistinctKeys(keys) && Without(own, keys) == ANYTHING.(role := role)
    ensures UiStep(w.Read(pos)) == Ok(own)
  {
    CriteriaRead(w.Read(pos), pos + |w.head|, role, own, keys);
  }

  lemma UiStepReads(l: Locator, pos: nat)
    ensures UiStep(UiWritten(l).Read(pos)) == Ok(Own(l))
  {
    HeadReadsAs(l.role, NamesNothing(l));
    NothingLeft(l);
    OrderIsDistinct();
    WrittenCriteriaRead(UiWritten(l), pos, l.role, Own(l), UI_ORDER);
  }

  /** Where the locator's own step starts in its print. */
  function StartOf(l: Locator): nat { if l.within.Some? then |PrintLocator(l.within.value)| + 4 else 0 }

  /** What reading the print yields before it is interpreted. */
  function StepsOf(l: Locator): (steps: seq<Step>)
    ensures steps != []
  {
    (if l.within.Some? then StepsOf(l.within.value) else []) + [UiWritten(l).Read(StartOf(l))]
  }

  lemma NestedMore(front: seq<Step>, step: Step, scope: Option<Locator>, own: Locator)
    requires Nested(front) == Ok(scope) && UiStep(step) == Ok(own)
    ensures Nested(front + [step]) == Ok(Some(if scope.Some? then own.(within := scope) else own))
  {
    assert (front + [step])[..|front|] == front;
  }

  lemma {:induction false} NestedReads(l: Locator)
    ensures Nested(StepsOf(l)) == Ok(Some(l))
  {
    var step := UiWritten(l).Read(StartOf(l));
    UiStepReads(l, StartOf(l));
    if l.within.Some? {
      NestedReads(l.within.value);
      NestedMore(StepsOf(l.within.value), step, Some(l.within.value), Own(l));
    } else {
      NestedMore([], step, None, Own(l));
    }
  }

  /** A step ends the selector, or another follows after ` >>`. */
  predicate JoinOrEnd(s: string, end: nat) {
    end == |s| || (end + 3 < |s| && s[end] == ' ' && s[end + 1] == '>' && s[end + 2] == '>' && s[end + 3] == ' ')
  }

  lemma JoinStops(s: string, end: nat)
    requires JoinOrEnd(s, end)
    ensures StepStops(s, end) && SpaceEnd(s, end) == (if end == |s| then end else end + 1)
    ensures SpaceEnd(s, SpaceEnd(s, end)) == SpaceEnd(s, end)
    ensures end < |s| ==> Next(s, end + 1, ">>")
  {
  }

  lemma StepsContinue(s: string, pos: nat, at: nat, steps: seq<Step>, step: Step, end: nat)
    requires pos <= |s| && end <= |s| && SpaceEnd(s, pos) == at && GivesStep(ReadStep(s, at), step, end)
             && SpaceEnd(s, end) == end
    ensures end == |s| ==> ReadSteps(s, pos, steps) == Ok((steps + [step], end))
    ensures end < |s| && Next(s, end, ">>") ==>
              end + 2 <= |s| && ReadSteps(s, pos, steps) == ReadSteps(s, end + 2, steps + [step])
  {
  }

  /** `steps` are all, or those that follow are still to be read. */
  ghost predicate ReadUpTo(s: string, r: Read<seq<Step>>, steps: seq<Step>, end: nat)
    requires end <= |s|
  {
    if end == |s| then r == Ok((steps, end)) else end + 3 <= |s| && r == ReadSteps(s, end + 3, steps)
  }

  lemma WrittenReads(s: string, pos: nat, at: nat, written: Written, before: seq<Step>, end: nat, r: Read<seq<Step>>)
    requires pos <= at <= |s| && SpaceEnd(s, pos) == SpaceEnd(s, at) && r == ReadSteps(s, pos, before)
    requires written.Ok() && Next(s, at, written.Text()) && end == at + |written.Text()| && JoinOrEnd(s, end)
    ensures ReadUpTo(s, r, before + [written.Read(at)], end)
  {
    JoinStops(s, end);
    StepReads(s, at, written, end, ReadStep(s, at));
    StepsContinue(s, pos, at, before, written.Read(at), SpaceEnd(s, end));
  }

  lemma ScopeSplits(s: string, scope: string, own: string)
    requires Next(s, 0, scope + (" >> " + own))
    ensures Next(s, 0, scope) && JoinOrEnd(s, |scope|) && |scope| + 4 <= |s| && Next(s, |scope| + 4, own)
    ensures s[|scope| + 3] == ' '
  {
    NextSplits(s, 0, scope, " >> " + own);
    NextSplits(s, |scope|, " >> ", own);
    assert " >> "[0] == ' ' && " >> "[1] == '>' && " >> "[2] == '>' && " >> "[3] == ' ';
  }

  /** One more step after those of the scope. */
  lemma ScopedReads(s: string, scope: string, steps: seq<Step>, written: Written, end: nat, r: Read<seq<Step>>)
    requires Next(s, 0, scope + (" >> " + written.Text())) && written.Ok()
    requires end == |scope| + 4 + |written.Text()| && JoinOrEnd(s, end) && |scope| <= |s|
             && ReadUpTo(s, r, steps, |scope|)
    ensures ReadUpTo(s, r, steps + [written.Read(|scope| + 4)], end)
  {
    ScopeSplits(s, scope, written.Text());
    WrittenReads(s, |scope| + 3, |scope| + 4, written, steps, end, r);
  }

  lemma PrintUnfolds(l: Locator)
    ensures var own := UiWritten(l).Text();
            PrintLocator(l) == if l.within.Some? then PrintLocator(l.within.value) + (" >> " + own) else own
  {
    var own := UiWritten(l).Text();
    if l.within.Some? {
      Associates(PrintLocator(l.within.value), " >> ", own);
    } else {
      assert "" + own == own;
    }
  }

  lemma {:induction false} PrintReads(s: string, l: Locator, text: string, end: nat, r: Read<seq<Step>>)
    requires text == PrintLocator(l) && end == |text| && r == ReadSteps(s, 0, [])
    requires Next(s, 0, text) && JoinOrEnd(s, end)
    ensures ReadUpTo(s, r, StepsOf(l), end)
    decreases l
  {
    var written := UiWritten(l);
    WrittenOk(l);
    PrintUnfolds(l);
    if l.within.Some? {
      var scope := PrintLocator(l.within.value);
      ScopeSplits(s, scope, written.Text());
      PrintReads(s, l.within.value, scope, |scope|, r);
      ScopedReads(s, scope, StepsOf(l.within.value), written, end, r);
    } else {
      WrittenReads(s, 0, 0, written, [], end, r);
      assert [] + [written.Read(0)] == StepsOf(l);
    }
  }

  /** Whatever its scopes and the characters of its strings, the print of a locator reads as that locator. */
  lemma PrintedLocatorParses(l: Locator)
    ensures ParseLocator(PrintLocator(l)) == Ok(l)
  {
    var s := PrintLocator(l);
    NextItself(s);
    PrintReads(s, l, s, |s|, ReadSteps(s, 0, []));
    NestedReads(l);
  }

  lemma NextItself(s: string)
    ensures Next(s, 0, s)
  {
  }

  /** Hence no two locators print alike. */
  lemma PrintingIsInjective(a: Locator, b: Locator)
    requires PrintLocator(a) == PrintLocator(b)
    ensures a == b
  {
    PrintedLocatorParses(a);
    PrintedLocatorParses(b);
  }

  // ---------------------------------------------------------------------------------
  // Errors name a column of the selector, or the one after it.

  predicate ColumnOf(s: string, e: SelectorError) { 1 <= e.column <= |s| + 1 }

  lemma ApplyUiErrs(l: Locator, attr: Attr)
    ensures ApplyUi(l, attr).Err? ==> ApplyUi(l, attr).error.column == attr.at + 1
  {
  }

  lemma {:induction false} AppliedErrs(s: string, base: Locator, attrs: seq<Attr>)
    requires forall k | 0 <= k < |attrs| :: attrs[k].at <= |s|
    ensures var r := Applied(ApplyUi, base, attrs); r.Err? ==> ColumnOf(s, r.error)
  {
    if attrs != [] {
      var n := |attrs| - 1;
      AppliedErrs(s, base, attrs[..n]);
      var front := Applied(ApplyUi, base, attrs[..n]);
      if front.Ok? { ApplyUiErrs(front.value, attrs[n]); }
    }
  }

  lemma UiStepErrs(s: string, step: Step)
    requires StepInBounds(s, step)
    ensures UiStep(step).Err? ==> ColumnOf(s, UiStep(step).error)
  {
    forall k | 0 <= k < |step.attrs| ensures step.attrs[k].at <= |s| { assert step.attrs[k] in step.attrs; }
    AppliedErrs(s, ANYTHING, step.attrs);
    if step.head.Some? {
      AppliedErrs(s, ANYTHING.(role := FindRole(ALL_ROLES, step.head.value.0)), step.attrs);
    }
  }

  lemma {:induction false} NestedErrs(s: string, steps: seq<Step>)
    requires StepsInBounds(s, steps)
    ensures Nested(steps).Err? ==> ColumnOf(s, Nested(steps).error)
  {
    if steps != [] {
      NestedErrs(s, steps[..|steps| - 1]);
      UiStepErrs(s, steps[|steps| - 1]);
    }
  }

  /** Every selector either parses or is refused at a column inside it or just after it. */
  lemma ErrorColumnIsInside(s: string)
    ensures ParseLocator(s).Err? ==> ColumnOf(s, ParseLocator(s).error)
  {
    var r := ReadSteps(s, 0, []);
    ReadStepsInside(s, 0, []);
    if r.Ok? { NestedErrs(s, r.value.0); }
  }
}

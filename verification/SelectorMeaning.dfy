/**
 What a UI selector means: the criterion that each of its attributes sets, and which attributes are refused, and where.
 */
module SelectorMeaning {
  import opened Locators
  import opened SelectorGrammar
  import opened SelectorSpelling
  import opened SelectorText
  import opened Sequences
  import opened Wrappers

  // ---------------------------------------------------------------------------------
  // Applying attributes one after another, whatever they are applied to.

  /** Why an attribute that follows others is refused, if it is. */
  type Faults = (seq<Attr>, Attr) -> Option<Fault>

  /** None of the first `n` attributes is refused. */
  predicate Faultless(faults: Faults, attrs: seq<Attr>, n: nat)
    requires n <= |attrs|
  {
    forall i | 0 <= i < n :: faults(attrs[..i], attrs[i]).None?
  }

  /** Attribute `i` is the first that is refused, and `e` says why at its key. */
  predicate RefusedAt(faults: Faults, attrs: seq<Attr>, i: nat, e: SelectorError) {
    && i < |attrs| && Faultless(faults, attrs, i)
    && faults(attrs[..i], attrs[i]).Some? && e == ErrorAt(attrs[i].at, faults(attrs[..i], attrs[i]).value)
  }

  /** What the attributes mean, or what is wrong with the first that is refused. */
  ghost predicate Gives<L>(faults: Faults, means: seq<Attr> -> L, attrs: seq<Attr>, r: Fallible<L>) {
    match r
    case Ok(l) => Faultless(faults, attrs, |attrs|) && l == means(attrs)
    case Err(e) => exists i :: RefusedAt(faults, attrs, i, e)
  }

  /** What one more attribute comes to. */
  function OneMore<L>(faults: Faults, means: seq<Attr> -> L, attrs: seq<Attr>, a: Attr): Fallible<L> {
    match faults(attrs, a)
    case Some(fault) => Err(ErrorAt(a.at, fault))
    case None => Ok(means(attrs + [a]))
  }

  predicate AppliesOne<L(==)>(apply: (L, Attr) -> Fallible<L>, faults: Faults, means: seq<Attr> -> L, attrs: seq<Attr>,
                              a: Attr)
  {
    apply(means(attrs), a) == OneMore(faults, means, attrs, a)
  }

  lemma FaultlessFront(faults: Faults, attrs: seq<Attr>, n: nat, i: nat)
    requires i <= n <= |attrs|
    ensures Faultless(faults, attrs[..n], i) <==> Faultless(faults, attrs, i)
    ensures i < n ==> attrs[..n][..i] == attrs[..i] && attrs[..n][i] == attrs[i]
  {
    assert forall j | 0 <= j < i :: attrs[..n][..j] == attrs[..j] && attrs[..n][j] == attrs[j];
    if i < n { assert attrs[..n][..i] == attrs[..i]; }
  }

  lemma RefusedStill(faults: Faults, front: seq<Attr>, a: Attr, i: nat, e: SelectorError)
    requires RefusedAt(faults, front, i, e)
    ensures RefusedAt(faults, front + [a], i, e)
  {
    assert (front + [a])[..|front|] == front;
    FaultlessFront(faults, front + [a], |front|, i);
  }

  lemma FaultlessMore(faults: Faults, front: seq<Attr>, a: Attr)
    requires Faultless(faults, front, |front|)
    ensures Faultless(faults, front + [a], |front|) && (front + [a])[..|front|] == front && (front + [a])[|front|] == a
    ensures faults(front, a).None? ==> Faultless(faults, front + [a], |front| + 1)
  {
    assert (front + [a])[..|front|] == front;
    FaultlessFront(faults, front + [a], |front|, |front|);
  }

  /** One more attribute behind `front`, which comes to `before`. */
  lemma LastGives<L>(faults: Faults, means: seq<Attr> -> L, front: seq<Attr>, a: Attr, before: Fallible<L>,
                     r: Fallible<L>)
    requires Gives(faults, means, front, before)
    requires if before.Err? then r == Err(before.error) else r == OneMore(faults, means, front, a)
    ensures Gives(faults, means, front + [a], r)
  {
    match before
    case Ok(l) =>
      FaultlessMore(faults, front, a);
      if r.Err? { assert RefusedAt(faults, front + [a], |front|, r.error); }
    case Err(e) =>
      var i :| RefusedAt(faults, front, i, e);
      RefusedStill(faults, front, a, i, e);
  }

  lemma {:induction false} AttributesMean<L>(apply: (L, Attr) -> Fallible<L>, faults: Faults, means: seq<Attr> -> L,
                                             attrs: seq<Attr>, r: Fallible<L>)
    requires forall front, a ::
      Faultless(faults, front, |front|) ==> AppliesOne(apply, faults, means, front, a)
    requires r == Applied(apply, means([]), attrs)
    ensures Gives(faults, means, attrs, r)
  {
    if attrs != [] {
      var n := |attrs| - 1;
      var front, a := attrs[..n], attrs[n];
      var before := Applied(apply, means([]), front);
      AttributesMean(apply, faults, means, front, before);
      assert before.Ok? ==> Faultless(faults, front, |front|) && AppliesOne(apply, faults, means, front, a);
      assert attrs == front + [a];
      LastGives(faults, means, front, a, before, r);
    }
  }

  // ---------------------------------------------------------------------------------
  // What single attributes say.

  /** The attribute with this key, if there is one. */
  function Lookup(attrs: seq<Attr>, key: string): Option<Attr> {
    if attrs == [] then None
    else if attrs[|attrs| - 1].key == key then Some(attrs[|attrs| - 1])
    else Lookup(attrs[..|attrs| - 1], key)
  }

  lemma LookupMore(attrs: seq<Attr>, a: Attr, key: string)
    ensures Lookup(attrs + [a], key) == if a.key == key then Some(a) else Lookup(attrs, key)
  {
    assert (attrs + [a])[..|attrs|] == attrs;
  }

  /** A lookup misses nothing. */
  lemma {:induction false} LookupFinds(attrs: seq<Attr>, key: string)
    ensures Lookup(attrs, key).Some? <==> exists i :: 0 <= i < |attrs| && attrs[i].key == key
    ensures Lookup(attrs, key).Some? ==> Lookup(attrs, key).value in attrs && Lookup(attrs, key).value.key == key
  {
    if attrs != [] {
      var n := |attrs| - 1;
      LookupFinds(attrs[..n], key);
      if Lookup(attrs[..n], key).Some? {
        var i :| 0 <= i < n && attrs[..n][i].key == key;
        assert attrs[i].key == key;
      }
    }
  }

  /** `=` asks for exactly that text, `~=` for one that contains it. */
  function MatchSaid(a: Option<Attr>): Option<NameMatcher> {
    if a.None? then None else if a.value.op.Equals? then Some(Exact(a.value.value))
    else Some(NameMatcher.Contains(a.value.value))
  }

  function TextSaid(a: Option<Attr>): Option<string> { if a.None? then None else Some(a.value.value) }

  predicate IsBool(text: string) { text == "true" || text == "false" }

  function BoolSaid(a: Option<Attr>): Option<bool> { if a.None? then None else Some(a.value.value == "true") }

  function NumberSaid(a: Option<Attr>, max: nat): (n: Option<nat>)
    ensures n.Some? ==> n.value <= max
  {
    if a.None? then None else ParseUnsigned(a.value.value, max)
  }

  /** Nothing was wrong with an attribute that is found among those that were not refused. */
  lemma FoundIsFaultless(faults: Faults, attrs: seq<Attr>, key: string) returns (i: nat)
    requires Faultless(faults, attrs, |attrs|) && Lookup(attrs, key).Some?
    ensures i < |attrs| && attrs[i] == Lookup(attrs, key).value && attrs[i].key == key
    ensures faults(attrs[..i], attrs[i]).None?
  {
    LookupFinds(attrs, key);
    i :| 0 <= i < |attrs| && attrs[i] == Lookup(attrs, key).value;
  }

  // ---------------------------------------------------------------------------------
  // UI attributes.

  const LARGEST_INDEX: nat := 0xFFFF_FFFF

  predicate IsStateKey(key: string) {
    key == "enabled" || key == "checked" || key == "selected" || key == "expanded" || key == "focused"
  }

  predicate IsUiKey(key: string) {
    key == "name" || key == "name_key" || key == "test_id" || key == "nth" || IsStateKey(key)
  }

  /** A value that the key does not take. */
  predicate Unwanted(key: string, value: string) {
    if key == "nth" then ParseUnsigned(value, LARGEST_INDEX).None? else IsStateKey(key) && !IsBool(value)
  }

  /** What is wrong with an attribute by itself. */
  function UiRefused(a: Attr): Option<Fault> {
    if !IsUiKey(a.key) then Some(UnknownAttribute(a.key))
    else if a.op.Contains? && a.key != "name" then Some(TakesEquals(a.key))
    else if Unwanted(a.key, a.value) then Some(Wants(a.key, a.value))
    else None
  }

  function UiFault(attrs: seq<Attr>, a: Attr): Option<Fault> {
    if UiRefused(a).Some? then UiRefused(a)
    else if Lookup(attrs, a.key).Some? then Some(GivenTwice(a.key))
    else None
  }

  /** The locator of a step with this role and these attributes. */
  function UiOf(role: Option<Role>, attrs: seq<Attr>): Locator {
    Locator(role, MatchSaid(Lookup(attrs, "name")), TextSaid(Lookup(attrs, "name_key")),
            TextSaid(Lookup(attrs, "test_id")), None, NumberSaid(Lookup(attrs, "nth"), LARGEST_INDEX),
            BoolSaid(Lookup(attrs, "enabled")), BoolSaid(Lookup(attrs, "checked")),
            BoolSaid(Lookup(attrs, "selected")), BoolSaid(Lookup(attrs, "expanded")),
            BoolSaid(Lookup(attrs, "focused")))
  }

  function UiMeaning(role: Option<Role>): seq<Attr> -> Locator { attrs => UiOf(role, attrs) }

  lemma UiOfMore(role: Option<Role>, attrs: seq<Attr>, a: Attr)
    ensures UiOf(role, attrs + [a]) ==
      var l := UiOf(role, attrs);
      Locator(role, if a.key == "name" then MatchSaid(Some(a)) else l.name,
              if a.key == "name_key" then Some(a.value) else l.nameKey,
              if a.key == "test_id" then Some(a.value) else l.testId, None,
              if a.key == "nth" then NumberSaid(Some(a), LARGEST_INDEX) else l.nth,
              if a.key == "enabled" then BoolSaid(Some(a)) else l.enabled,
              if a.key == "checked" then BoolSaid(Some(a)) else l.checked,
              if a.key == "selected" then BoolSaid(Some(a)) else l.selected,
              if a.key == "expanded" then BoolSaid(Some(a)) else l.expanded,
              if a.key == "focused" then BoolSaid(Some(a)) else l.focused)
  {
    LookupMore(attrs, a, "name");
    LookupMore(attrs, a, "name_key");
    LookupMore(attrs, a, "test_id");
    LookupMore(attrs, a, "nth");
    LookupMore(attrs, a, "enabled");
    LookupMore(attrs, a, "checked");
    LookupMore(attrs, a, "selected");
    LookupMore(attrs, a, "expanded");
    LookupMore(attrs, a, "focused");
  }

  /** An attribute for the slot that is `filled` or not comes to `m`, if nothing is wrong with it. */
  function Filling(a: Attr, filled: bool, m: Locator): Fallible<Locator> {
    if UiRefused(a).Some? then Err(ErrorAt(a.at, UiRefused(a).value))
    else if filled then Err(ErrorAt(a.at, GivenTwice(a.key)))
    else Ok(m)
  }

  lemma NameFills(l: Locator, a: Attr)
    requires a.key == "name"
    ensures ApplyUi(l, a) == Filling(a, l.name.Some?, l.(name := MatchSaid(Some(a))))
  {
  }

  lemma NameKeyFills(l: Locator, a: Attr)
    requires a.key == "name_key"
    ensures ApplyUi(l, a) == Filling(a, l.nameKey.Some?, l.(nameKey := Some(a.value)))
  {
  }

  lemma TestIdFills(l: Locator, a: Attr)
    requires a.key == "test_id"
    ensures ApplyUi(l, a) == Filling(a, l.testId.Some?, l.(testId := Some(a.value)))
  {
  }

  lemma NthFills(l: Locator, a: Attr)
    requires a.key == "nth"
    ensures ApplyUi(l, a) == Filling(a, l.nth.Some?, l.(nth := NumberSaid(Some(a), LARGEST_INDEX)))
  {
  }

  lemma EnabledFills(l: Locator, a: Attr)
    requires a.key == "enabled"
    ensures ApplyUi(l, a) == Filling(a, l.enabled.Some?, l.(enabled := BoolSaid(Some(a))))
  {
  }

  lemma CheckedFills(l: Locator, a: Attr)
    requires a.key == "checked"
    ensures ApplyUi(l, a) == Filling(a, l.checked.Some?, l.(checked := BoolSaid(Some(a))))
  {
  }

  lemma SelectedFills(l: Locator, a: Attr)
    requires a.key == "selected"
    ensures ApplyUi(l, a) == Filling(a, l.selected.Some?, l.(selected := BoolSaid(Some(a))))
  {
  }

  lemma ExpandedFills(l: Locator, a: Attr)
    requires a.key == "expanded"
    ensures ApplyUi(l, a) == Filling(a, l.expanded.Some?, l.(expanded := BoolSaid(Some(a))))
  {
  }

  lemma FocusedFills(l: Locator, a: Attr)
    requires a.key == "focused"
    ensures ApplyUi(l, a) == Filling(a, l.focused.Some?, l.(focused := BoolSaid(Some(a))))
  {
  }

  lemma NameApplies(role: Option<Role>, attrs: seq<Attr>, a: Attr)
    requires a.key == "name"
    ensures ApplyUi(UiOf(role, attrs), a) == OneMore(UiFault, UiMeaning(role), attrs, a)
  {
    NameFills(UiOf(role, attrs), a);
    UiOfMore(role, attrs, a);
  }

  lemma NameKeyApplies(role: Option<Role>, attrs: seq<Attr>, a: Attr)
    requires a.key == "name_key"
    ensures ApplyUi(UiOf(role, attrs), a) == OneMore(UiFault, UiMeaning(role), attrs, a)
  {
    NameKeyFills(UiOf(role, attrs), a);
    UiOfMore(role, attrs, a);
  }

  lemma TestIdApplies(role: Option<Role>, attrs: seq<Attr>, a: Attr)
    requires a.key == "test_id"
    ensures ApplyUi(UiOf(role, attrs), a) == OneMore(UiFault, UiMeaning(role), attrs, a)
  {
    TestIdFills(UiOf(role, attrs), a);
    UiOfMore(role, attrs, a);
  }

  lemma NthApplies(role: Option<Role>, attrs: seq<Attr>, a: Attr)
    requires a.key == "nth" && Faultless(UiFault, attrs, |attrs|)
    ensures ApplyUi(UiOf(role, attrs), a) == OneMore(UiFault, UiMeaning(role), attrs, a)
  {
    NthFills(UiOf(role, attrs), a);
    UiOfMore(role, attrs, a);
    if Lookup(attrs, "nth").Some? { var i := FoundIsFaultless(UiFault, attrs, "nth"); }
  }

  lemma EnabledApplies(role: Option<Role>, attrs: seq<Attr>, a: Attr)
    requires a.key == "enabled"
    ensures ApplyUi(UiOf(role, attrs), a) == OneMore(UiFault, UiMeaning(role), attrs, a)
  {
    EnabledFills(UiOf(role, attrs), a);
    UiOfMore(role, attrs, a);
  }

  lemma CheckedApplies(role: Option<Role>, attrs: seq<Attr>, a: Attr)
    requires a.key == "checked"
    ensures ApplyUi(UiOf(role, attrs), a) == OneMore(UiFault, UiMeaning(role), attrs, a)
  {
    CheckedFills(UiOf(role, attrs), a);
    UiOfMore(role, attrs, a);
  }

  lemma SelectedApplies(role: Option<Role>, attrs: seq<Attr>, a: Attr)
    requires a.key == "selected"
    ensures ApplyUi(UiOf(role, attrs), a) == OneMore(UiFault, UiMeaning(role), attrs, a)
  {
    SelectedFills(UiOf(role, attrs), a);
    UiOfMore(role, attrs, a);
  }

  lemma ExpandedApplies(role: Option<Role>, attrs: seq<Attr>, a: Attr)
    requires a.key == "expanded"
    ensures ApplyUi(UiOf(role, attrs), a) == OneMore(UiFault, UiMeaning(role), attrs, a)
  {
    ExpandedFills(UiOf(role, attrs), a);
    UiOfMore(role, attrs, a);
  }

  lemma FocusedApplies(role: Option<Role>, attrs: seq<Attr>, a: Attr)
    requires a.key == "focused"
    ensures ApplyUi(UiOf(role, attrs), a) == OneMore(UiFault, UiMeaning(role), attrs, a)
  {
    FocusedFills(UiOf(role, attrs), a);
    UiOfMore(role, attrs, a);
  }

  lemma UnknownApplies(role: Option<Role>, attrs: seq<Attr>, a: Attr)
    requires !IsUiKey(a.key)
    ensures ApplyUi(UiOf(role, attrs), a) == OneMore(UiFault, UiMeaning(role), attrs, a)
  {
  }

  lemma StateApplies(role: Option<Role>, attrs: seq<Attr>, a: Attr)
    requires IsStateKey(a.key)
    ensures ApplyUi(UiOf(role, attrs), a) == OneMore(UiFault, UiMeaning(role), attrs, a)
  {
    if a.key == "enabled" {
      EnabledApplies(role, attrs, a);
    } else if a.key == "checked" {
      CheckedApplies(role, attrs, a);
    } else if a.key == "selected" {
      SelectedApplies(role, attrs, a);
    } else if a.key == "expanded" {
      ExpandedApplies(role, attrs, a);
    } else {
      FocusedApplies(role, attrs, a);
    }
  }

  lemma UiApplies(role: Option<Role>, attrs: seq<Attr>, a: Attr)
    requires Faultless(UiFault, attrs, |attrs|)
    ensures AppliesOne(ApplyUi, UiFault, UiMeaning(role), attrs, a)
  {
    if a.key == "name" {
      NameApplies(role, attrs, a);
    } else if a.key == "name_key" {
      NameKeyApplies(role, attrs, a);
    } else if a.key == "test_id" {
      TestIdApplies(role, attrs, a);
    } else if a.key == "nth" {
      NthApplies(role, attrs, a);
    } else if IsStateKey(a.key) {
      StateApplies(role, attrs, a);
    } else {
      UnknownApplies(role, attrs, a);
    }
  }

  lemma UiAttributesMean(role: Option<Role>, attrs: seq<Attr>, r: Fallible<Locator>)
    requires r == Applied(ApplyUi, ANYTHING.(role := role), attrs)
    ensures Gives(UiFault, UiMeaning(role), attrs, r)
  {
    forall front, a | Faultless(UiFault, front, |front|)
      ensures AppliesOne(ApplyUi, UiFault, UiMeaning(role), front, a)
    {
      UiApplies(role, front, a);
    }
    assert UiMeaning(role)([]) == ANYTHING.(role := role);
    AttributesMean(ApplyUi, UiFault, UiMeaning(role), attrs, r);
  }

  // ---------------------------------------------------------------------------------
  // A step as it is written.

  predicate CriteriaOk(criteria: seq<Criterion>) { forall c <- criteria :: c.Ok() }

  function CriteriaText(criteria: seq<Criterion>): string {
    if criteria == [] then "" else criteria[0].Text() + CriteriaText(criteria[1..])
  }

  /** What the criteria written from position `at` on say, each with the position of its key. */
  function AttrsOf(criteria: seq<Criterion>, at: nat): seq<Attr>
    requires CriteriaOk(criteria)
    decreases |criteria|
  {
    if criteria == [] then []
    else
      var c := criteria[0];
      assert c in criteria;
      [Attr(c.key, c.op, c.spelled.Value(), at + 1 + |c.lead|)] + AttrsOf(criteria[1..], at + |c.Text()|)
  }

  function ItemsOf(criteria: seq<Criterion>): (items: seq<Item>)
    requires CriteriaOk(criteria)
    ensures |items| == |criteria|
  {
    if criteria == [] then [] else [criteria[0].AsItem()] + ItemsOf(criteria[1..])
  }

  lemma FirstItemIs(criteria: seq<Criterion>) returns (c: Criterion, rest: seq<Criterion>)
    requires criteria != [] && CriteriaOk(criteria)
    ensures c == criteria[0] && rest == criteria[1..] && c.Ok() && CriteriaOk(rest)
    ensures ItemsOf(criteria)[0] == c.AsItem() && ItemsOf(criteria)[1..] == ItemsOf(rest)
  {
    c, rest := criteria[0], criteria[1..];
    assert c in criteria;
  }

  lemma {:induction false} ItemsWritten(criteria: seq<Criterion>, items: seq<Item>)
    requires CriteriaOk(criteria) && items == ItemsOf(criteria)
    ensures AllWritable(items) && WriteItems(items) == CriteriaText(criteria)
    decreases |criteria|
  {
    if criteria != [] {
      var c, rest := FirstItemIs(criteria);
      CriterionIsWritable(c);
      ItemsWritten(rest, items[1..]);
    }
  }

  lemma AttrsSplit(criteria: seq<Criterion>, at: nat, c: Criterion, a: Attr, rest: seq<Criterion>)
    requires criteria != [] && CriteriaOk(criteria) && c == criteria[0] && c.Ok() && a == AttrAt(c.AsItem(), at)
    requires rest == criteria[1..]
    ensures AttrsOf(criteria, at) == [a] + AttrsOf(rest, at + |c.Text()|)
  {
  }

  lemma ItemsAreAttrsStep(criteria: seq<Criterion>, items: seq<Item>, attrs: seq<Attr>, at: nat, more: seq<Attr>)
    returns (attrs': seq<Attr>, at': nat, more': seq<Attr>)
    requires criteria != [] && CriteriaOk(criteria) && items == ItemsOf(criteria) && more == AttrsOf(criteria, at)
    ensures CriteriaOk(criteria[1..]) && items[1..] == ItemsOf(criteria[1..])
    ensures ItemAttrs(attrs, items, at) == ItemAttrs(attrs', items[1..], at')
    ensures more' == AttrsOf(criteria[1..], at') && attrs' + more' == attrs + more
  {
    var c, rest := FirstItemIs(criteria);
    var a := AttrAt(c.AsItem(), at);
    attrs', at' := attrs + [a], at + |c.Text()|;
    more' := AttrsOf(rest, at');
    ItemAttrsStep(attrs, items, at);
    AttrsSplit(criteria, at, c, a, rest);
    Associates(attrs, [a], more');
  }

  lemma {:induction false} ItemsAreAttrs(criteria: seq<Criterion>, items: seq<Item>, attrs: seq<Attr>, at: nat,
                                         more: seq<Attr>)
    requires CriteriaOk(criteria) && items == ItemsOf(criteria) && more == AttrsOf(criteria, at)
    ensures ItemAttrs(attrs, items, at) == attrs + more
    decreases |criteria|
  {
    if criteria == [] {
      assert attrs + [] == attrs;
    } else {
      var attrs', at', more' := ItemsAreAttrsStep(criteria, items, attrs, at, more);
      ItemsAreAttrs(criteria[1..], items[1..], attrs', at', more');
    }
  }

  predicate HeadIs(head: string, role: Option<Role>) {
    if role.Some? then head == RoleName(role.value) else head == "" || head == "*"
  }

  lemma HeadIsReads(head: string, role: Option<Role>)
    requires HeadIs(head, role)
    ensures (head == "*" || IsIdent(head)) && ReadsAs(head, role)
  {
    if role.Some? {
      RoleNameIsIdent(role.value);
      RoleFound(role.value);
    }
  }

  lemma OneStepParses(s: string, step: Step, r: Fallible<Locator>)
    requires ReadSteps(s, 0, []) == Ok(([step], |s|)) && r == UiStep(step)
    requires r.Ok? ==> r.value.within.None?
    ensures ParseLocator(s) == r
  {
    assert [step][..0] == [] && Nested([]) == Ok(None);
    if r.Ok? { NestedMore([], step, None, r.value); }
  }

  lemma ApplyKeepsWithin(l: Locator, a: Attr)
    ensures ApplyUi(l, a).Ok? ==> ApplyUi(l, a).value.within == l.within
  {
  }

  lemma {:induction false} AppliedKeepsWithin(base: Locator, attrs: seq<Attr>, r: Fallible<Locator>)
    requires r == Applied(ApplyUi, base, attrs)
    ensures r.Ok? ==> r.value.within == base.within
  {
    if attrs != [] {
      var n := |attrs| - 1;
      var before := Applied(ApplyUi, base, attrs[..n]);
      AppliedKeepsWithin(base, attrs[..n], before);
      if before.Ok? { ApplyKeepsWithin(before.value, attrs[n]); }
    }
  }

  lemma StepComesTo(head: string, at: nat, role: Option<Role>, attrs: seq<Attr>, r: Fallible<Locator>)
    requires ReadsAs(head, role) && r == Applied(ApplyUi, ANYTHING.(role := role), attrs)
    ensures UiStep(Step(HeadOf(head, at), attrs)) == r
  {
    if role.None? { assert ANYTHING.(role := role) == ANYTHING; }
  }

  /** A selector of one step comes to its attributes applied to a locator with its role. */
  lemma StepTextParses(head: string, role: Option<Role>, items: seq<Item>, r: Fallible<Locator>)
    requires HeadIs(head, role) && AllWritable(items) && (head == "" ==> items != [])
    requires r == Applied(ApplyUi, ANYTHING.(role := role), ItemAttrs([], items, |head|))
    ensures ParseLocator(head + WriteItems(items)) == r
  {
    var s, written := head + WriteItems(items), Written(head, items);
    HeadIsReads(head, role);
    WrittenIsOk(head, items);
    NextItself(s);
    WrittenReads(s, 0, 0, written, [], |s|, ReadSteps(s, 0, []));
    assert [] + [written.Read(0)] == [written.Read(0)];
    AppliedKeepsWithin(ANYTHING.(role := role), ItemAttrs([], items, |head|), r);
    StepComesTo(head, 0, role, ItemAttrs([], items, |head|), r);
    OneStepParses(s, written.Read(0), r);
  }

  /** However it is spelled, a selector of one step is read as what its criteria mean, or refused at the first key at
      fault. */
  lemma SelectorMeans(head: string, role: Option<Role>, criteria: seq<Criterion>)
    requires HeadIs(head, role) && CriteriaOk(criteria) && (head == "" ==> criteria != [])
    ensures Gives(UiFault, UiMeaning(role), AttrsOf(criteria, |head|), ParseLocator(head + CriteriaText(criteria)))
  {
    var attrs := AttrsOf(criteria, |head|);
    var r := Applied(ApplyUi, ANYTHING.(role := role), attrs);
    ItemsWritten(criteria, ItemsOf(criteria));
    ItemsAreAttrs(criteria, ItemsOf(criteria), [], |head|, attrs);
    assert [] + attrs == attrs;
    StepTextParses(head, role, ItemsOf(criteria), r);
    UiAttributesMean(role, attrs, r);
  }

  // ---------------------------------------------------------------------------------
  // Several steps.

  datatype StepText = StepText(head: string, role: Option<Role>, criteria: seq<Criterion>) {
    predicate Ok() { HeadIs(head, role) && CriteriaOk(criteria) && (head == "" ==> criteria != []) }

    function Text(): string { head + CriteriaText(criteria) }

    /** What the criteria say if the step is written from position `at` on. */
    function Attrs(at: nat): seq<Attr>
      requires Ok()
    {
      AttrsOf(criteria, at + |head|)
    }
  }

  predicate StepsOk(steps: seq<StepText>) { forall k | 0 <= k < |steps| :: steps[k].Ok() }

  /** The steps, each joined to the one before it. */
  function StepsText(steps: seq<StepText>): string {
    if steps == [] then "" else if |steps| == 1 then steps[0].Text()
    else StepsText(steps[..|steps| - 1]) + (" >> " + steps[|steps| - 1].Text())
  }

  /** Where step `k` begins. */
  function StepAt(steps: seq<StepText>, k: nat): nat
    requires k < |steps|
  {
    if k == 0 then 0 else |StepsText(steps[..k])| + 4
  }

  /** Each step's locator within the one before it. */
  function NestOf(steps: seq<StepText>): Option<Locator>
    requires StepsOk(steps)
  {
    if steps == [] then None
    else
      var n := |steps| - 1;
      Some(UiOf(steps[n].role, steps[n].Attrs(StepAt(steps, n))).(within := NestOf(steps[..n])))
  }

  predicate StepFaultless(steps: seq<StepText>, k: nat)
    requires StepsOk(steps) && k < |steps|
  {
    var attrs := steps[k].Attrs(StepAt(steps, k));
    Faultless(UiFault, attrs, |attrs|)
  }

  /** The first `n` steps have no fault. */
  predicate FrontFaultless(steps: seq<StepText>, n: nat)
    requires n <= |steps| && StepsOk(steps)
  {
    forall k | 0 <= k < n :: StepFaultless(steps, k)
  }

  /** Attribute `i` of step `k` is the first that is refused. */
  predicate StepRefusedAt(steps: seq<StepText>, k: nat, i: nat, e: SelectorError)
    requires StepsOk(steps)
  {
    && k < |steps| && FrontFaultless(steps, k)
    && RefusedAt(UiFault, steps[k].Attrs(StepAt(steps, k)), i, e)
  }

  /** The locator of the last step within those before it, or what is wrong with the first attribute refused. */
  ghost predicate NestGives(steps: seq<StepText>, r: Fallible<Option<Locator>>)
    requires StepsOk(steps)
  {
    match r
    case Ok(l) => FrontFaultless(steps, |steps|) && l == NestOf(steps)
    case Err(e) => exists k, i :: StepRefusedAt(steps, k, i, e)
  }

  function ReadStepOf(w: StepText, at: nat): Step
    requires w.Ok()
  {
    Step(HeadOf(w.head, at), w.Attrs(at))
  }

  function ReadStepsOf(steps: seq<StepText>): (r: seq<Step>)
    requires StepsOk(steps)
    ensures |r| == |steps|
  {
    if steps == [] then []
    else
      var n := |steps| - 1;
      ReadStepsOf(steps[..n]) + [ReadStepOf(steps[n], StepAt(steps, n))]
  }

  lemma StepReadIs(head: string, items: seq<Item>, at: nat, attrs: seq<Attr>)
    requires attrs == ItemAttrs([], items, at + |head|)
    ensures Written(head, items).Read(at) == Step(HeadOf(head, at), attrs)
  {
  }

  lemma StepAttrsAre(w: StepText, at: nat, items: seq<Item>)
    requires w.Ok() && items == ItemsOf(w.criteria)
    ensures ItemAttrs([], items, at + |w.head|) == w.Attrs(at)
  {
    var attrs := w.Attrs(at);
    ItemsAreAttrs(w.criteria, items, [], at + |w.head|, attrs);
    assert [] + attrs == attrs;
  }

  lemma StepIsWritten(w: StepText, at: nat) returns (written: Written)
    requires w.Ok()
    ensures written.Ok() && written.Text() == w.Text() && written.Read(at) == ReadStepOf(w, at)
  {
    var items := ItemsOf(w.criteria);
    written := Written(w.head, items);
    HeadIsReads(w.head, w.role);
    ItemsWritten(w.criteria, items);
    WrittenIsOk(w.head, items);
    StepAttrsAre(w, at, items);
    StepReadIs(w.head, items, at, w.Attrs(at));
  }

  lemma TextSplits(steps: seq<StepText>, n: nat, own: string, scope: string)
    requires n > 0 && n + 1 == |steps| && own == steps[n].Text() && scope == StepsText(steps[..n])
    ensures StepsText(steps) == scope + (" >> " + own) && StepAt(steps, n) == |scope| + 4
  {
  }

  lemma ReadStepsSplit(steps: seq<StepText>, n: nat, at: nat)
    requires n + 1 == |steps| && StepsOk(steps) && at == StepAt(steps, n)
    ensures StepsOk(steps[..n]) && ReadStepsOf(steps) == ReadStepsOf(steps[..n]) + [ReadStepOf(steps[n], at)]
  {
  }

  lemma StepsSplit(steps: seq<StepText>, n: nat, own: string, scope: string)
    requires n > 0 && n + 1 == |steps| && StepsOk(steps) && own == steps[n].Text() && scope == StepsText(steps[..n])
    ensures StepsText(steps) == scope + (" >> " + own) && StepsOk(steps[..n])
    ensures ReadStepsOf(steps) == ReadStepsOf(steps[..n]) + [ReadStepOf(steps[n], |scope| + 4)]
  {
    TextSplits(steps, n, own, scope);
    ReadStepsSplit(steps, n, |scope| + 4);
  }

  lemma OnlyStep(steps: seq<StepText>)
    requires |steps| == 1 && StepsOk(steps)
    ensures StepsText(steps) == steps[0].Text() && ReadStepsOf(steps) == [] + [ReadStepOf(steps[0], 0)]
  {
    assert steps[..0] == [];
  }

  lemma OneStepIsRead(s: string, steps: seq<StepText>, text: string, end: nat, r: Read<seq<Step>>)
    requires |steps| == 1 && StepsOk(steps) && text == StepsText(steps) && end == |text| && r == ReadSteps(s, 0, [])
    requires Next(s, 0, text) && JoinOrEnd(s, end)
    ensures ReadUpTo(s, r, ReadStepsOf(steps), end)
  {
    var written := StepIsWritten(steps[0], 0);
    OnlyStep(steps);
    WrittenReads(s, 0, 0, written, [], end, r);
  }

  lemma LastStepIsRead(s: string, steps: seq<StepText>, n: nat, scope: string, front: seq<Step>, end: nat,
                       r: Read<seq<Step>>)
    requires n > 0 && n + 1 == |steps| && StepsOk(steps) && scope == StepsText(steps[..n])
    requires front == ReadStepsOf(steps[..n]) && end == |StepsText(steps)| && JoinOrEnd(s, end)
    requires Next(s, 0, StepsText(steps)) && |scope| <= |s| && ReadUpTo(s, r, front, |scope|)
    ensures ReadUpTo(s, r, ReadStepsOf(steps), end)
  {
    var written := StepIsWritten(steps[n], |scope| + 4);
    StepsSplit(steps, n, written.Text(), scope);
    ScopedReads(s, scope, front, written, end, r);
  }

  lemma ScopeStands(s: string, steps: seq<StepText>, n: nat, scope: string)
    requires n > 0 && n + 1 == |steps| && StepsOk(steps) && scope == StepsText(steps[..n])
    requires Next(s, 0, StepsText(steps))
    ensures Next(s, 0, scope) && JoinOrEnd(s, |scope|) && |scope| <= |s|
  {
    StepsSplit(steps, n, steps[n].Text(), scope);
    ScopeSplits(s, scope, steps[n].Text());
  }

  lemma {:induction false} StepsAreRead(s: string, steps: seq<StepText>, text: string, end: nat, r: Read<seq<Step>>)
    requires steps != [] && StepsOk(steps) && text == StepsText(steps) && end == |text| && r == ReadSteps(s, 0, [])
    requires Next(s, 0, text) && JoinOrEnd(s, end)
    ensures ReadUpTo(s, r, ReadStepsOf(steps), end)
    decreases |steps|
  {
    var n := |steps| - 1;
    if n == 0 {
      OneStepIsRead(s, steps, text, end, r);
    } else {
      var scope := StepsText(steps[..n]);
      ScopeStands(s, steps, n, scope);
      StepsAreRead(s, steps[..n], scope, |scope|, r);
      LastStepIsRead(s, steps, n, scope, ReadStepsOf(steps[..n]), end, r);
    }
  }

  lemma StepFront(steps: seq<StepText>, n: nat, k: nat)
    requires StepsOk(steps) && k < n <= |steps|
    ensures StepsOk(steps[..n]) && steps[..n][k] == steps[k] && StepAt(steps[..n], k) == StepAt(steps, k)
    ensures StepFaultless(steps[..n], k) <==> StepFaultless(steps, k)
  {
    assert steps[..n][..k] == steps[..k];
  }

  lemma FrontRefused(steps: seq<StepText>, n: nat, k: nat, i: nat, e: SelectorError)
    requires n <= |steps| && StepsOk(steps) && StepRefusedAt(steps[..n], k, i, e)
    ensures StepRefusedAt(steps, k, i, e)
  {
    forall j | 0 <= j <= k ensures StepFaultless(steps[..n], j) <==> StepFaultless(steps, j) {
      StepFront(steps, n, j);
    }
    StepFront(steps, n, k);
  }

  /** One more step behind those that come to `scope`. */
  function Joining(scope: Fallible<Option<Locator>>, own: Fallible<Locator>): Fallible<Option<Locator>> {
    var outer :- scope;
    var inner :- own;
    Ok(Some(if outer.Some? then inner.(within := outer) else inner))
  }

  lemma FrontIsFaultless(steps: seq<StepText>, n: nat)
    requires n <= |steps| && StepsOk(steps)
    ensures FrontFaultless(steps[..n], n) <==> FrontFaultless(steps, n)
  {
    forall k | 0 <= k < n ensures StepFaultless(steps[..n], k) <==> StepFaultless(steps, k) { StepFront(steps, n, k); }
  }

  lemma NestMore(steps: seq<StepText>, n: nat, outer: Option<Locator>, own: Locator)
    requires n + 1 == |steps| && StepsOk(steps) && outer == NestOf(steps[..n])
    requires own == UiOf(steps[n].role, steps[n].Attrs(StepAt(steps, n)))
    ensures NestOf(steps) == Some(if outer.Some? then own.(within := outer) else own)
  {
    assert own.within.None?;
  }

  lemma FrontMore(steps: seq<StepText>, n: nat)
    requires n + 1 == |steps| && StepsOk(steps) && FrontFaultless(steps, n) && StepFaultless(steps, n)
    ensures FrontFaultless(steps, |steps|)
  {
    forall k | 0 <= k < |steps| ensures StepFaultless(steps, k) {
      assert k < n || k == n;
    }
  }

  lemma LastStepNests(steps: seq<StepText>, n: nat, nested: Option<Locator>)
    requires n + 1 == |steps| && StepsOk(steps) && FrontFaultless(steps, n) && StepFaultless(steps, n)
    requires nested == NestOf(steps)
    ensures NestGives(steps, Ok(nested))
  {
    FrontMore(steps, n);
  }

  lemma LastStepRefused(steps: seq<StepText>, n: nat, e: SelectorError)
    requires n + 1 == |steps| && StepsOk(steps) && FrontFaultless(steps, n)
    requires Gives<Locator>(UiFault, UiMeaning(steps[n].role), steps[n].Attrs(StepAt(steps, n)), Err(e))
    ensures NestGives(steps, Err(e))
  {
    var i :| RefusedAt(UiFault, steps[n].Attrs(StepAt(steps, n)), i, e);
    assert StepRefusedAt(steps, n, i, e);
  }

  lemma LastStepGives(steps: seq<StepText>, n: nat, scope: Fallible<Option<Locator>>, own: Fallible<Locator>)
    requires n + 1 == |steps| && StepsOk(steps) && NestGives(steps[..n], scope)
    requires Gives(UiFault, UiMeaning(steps[n].role), steps[n].Attrs(StepAt(steps, n)), own)
    ensures NestGives(steps, Joining(scope, own))
  {
    match scope
    case Err(e) =>
      var k, i :| StepRefusedAt(steps[..n], k, i, e);
      FrontRefused(steps, n, k, i, e);
    case Ok(outer) =>
      FrontIsFaultless(steps, n);
      match own
      case Ok(l) =>
        NestMore(steps, n, outer, l);
        LastStepNests(steps, n, NestOf(steps));
      case Err(e) => LastStepRefused(steps, n, e);
  }

  lemma {:induction false} NestedIsNest(steps: seq<StepText>, r: Fallible<Option<Locator>>)
    requires StepsOk(steps) && r == Nested(ReadStepsOf(steps))
    ensures NestGives(steps, r)
    decreases |steps|
  {
    if steps != [] {
      var n := |steps| - 1;
      var w, at := steps[n], StepAt(steps, n);
      var own := Applied(ApplyUi, ANYTHING.(role := w.role), w.Attrs(at));
      NestedIsNest(steps[..n], Nested(ReadStepsOf(steps[..n])));
      UiAttributesMean(w.role, w.Attrs(at), own);
      HeadIsReads(w.head, w.role);
      StepComesTo(w.head, at, w.role, w.Attrs(at), own);
      assert ReadStepsOf(steps)[..n] == ReadStepsOf(steps[..n]) && ReadStepsOf(steps)[n] == ReadStepOf(w, at);
      LastStepGives(steps, n, Nested(ReadStepsOf(steps[..n])), own);
    }
  }

  /** The locator that the steps mean, or what is wrong with the first attribute refused. */
  ghost predicate SelectorGives(steps: seq<StepText>, r: Fallible<Locator>)
    requires StepsOk(steps)
  {
    NestGives(steps, match r case Ok(l) => Ok(Some(l)) case Err(e) => Err(e))
  }

  /** However it is spelled, a selector is read as what its steps mean, or refused at the first key at fault. */
  lemma StepsMean(steps: seq<StepText>)
    requires steps != [] && StepsOk(steps)
    ensures SelectorGives(steps, ParseLocator(StepsText(steps)))
  {
    var s := StepsText(steps);
    NextItself(s);
    StepsAreRead(s, steps, s, |s|, ReadSteps(s, 0, []));
    NestedIsNest(steps, Nested(ReadStepsOf(steps)));
    var nested := Nested(ReadStepsOf(steps));
    assert nested.Ok? ==> nested.value == NestOf(steps) && nested.value.Some?;
  }

  // ---------------------------------------------------------------------------------
  // One criterion at a time.

  lemma OneItemIs(item: Item, text: string, a: Attr)
    requires item.text == text && a == AttrAt(item, 0)
    ensures WriteItems([item]) == text && ItemAttrs([], [item], 0) == [a] && AllWritable([item]) == Writable(item)
  {
    ItemAttrsStep([], [item], 0);
    assert [item][1..] == [] && [] + [a] == [a];
    assert WriteItems([]) == "" && text + "" == text;
    assert ItemAttrs([a], [], |text|) == [a] && AllWritable([]);
  }

  lemma OneCriterion(key: string, op: Op, valueText: string, value: string, text: string)
    requires key != "" && IsIdent(key) && Renders(valueText, value)
    requires text == "[" + key + OpText(op) + valueText + "]"
    ensures ParseLocator(text) == ApplyUi(ANYTHING, Attr(key, op, value, 1))
  {
    var item, a := Bracketed(key, op, value, valueText), Attr(key, op, value, 1);
    BracketedIsWritable(key, op, value, valueText);
    OneItemIs(item, text, a);
    assert [a][..0] == [] && Applied(ApplyUi, ANYTHING, [a]) == ApplyUi(ANYTHING, a);
    assert ANYTHING.(role := None) == ANYTHING && "" + text == text;
    StepTextParses("", None, [item], ApplyUi(ANYTHING, a));
  }

  /** How a selector of one criterion is written. */
  function CriterionText(key: string, op: Op, valueText: string): string { "[" + key + OpText(op) + valueText + "]" }

  lemma Opens(open: string, key: string, op: Op, valueText: string)
    requires open == "[" + key + OpText(op)
    ensures open + valueText + "]" == CriterionText(key, op, valueText)
  {
  }

  lemma NameAlone(op: Op, v: string, text: string)
    requires text == CriterionText("name", op, WriteValue(v))
    ensures ParseLocator(text) == Ok(ANYTHING.(name := Some(if op.Equals? then Exact(v) else NameMatcher.Contains(v))))
  {
    WriteValueRenders(v);
    NameFills(ANYTHING, Attr("name", op, v, 1));
    OneCriterion("name", op, WriteValue(v), v, text);
  }

  lemma NameKeyAlone(op: Op, v: string, text: string)
    requires text == CriterionText("name_key", op, WriteValue(v))
    ensures ParseLocator(text) == if op.Equals? then Ok(ANYTHING.(nameKey := Some(v)))
                                  else Err(SelectorError(2, TakesEquals("name_key")))
  {
    WriteValueRenders(v);
    NameKeyFills(ANYTHING, Attr("name_key", op, v, 1));
    OneCriterion("name_key", op, WriteValue(v), v, text);
  }

  lemma TestIdAlone(op: Op, v: string, text: string)
    requires text == CriterionText("test_id", op, WriteValue(v))
    ensures ParseLocator(text) == if op.Equals? then Ok(ANYTHING.(testId := Some(v)))
                                  else Err(SelectorError(2, TakesEquals("test_id")))
  {
    WriteValueRenders(v);
    TestIdFills(ANYTHING, Attr("test_id", op, v, 1));
    OneCriterion("test_id", op, WriteValue(v), v, text);
  }

  lemma NthAlone(n: U32, text: string)
    requires text == CriterionText("nth", Equals, Numeral(n, 10))
    ensures ParseLocator(text) == Ok(ANYTHING.(nth := Some(n)))
  {
    NumeralReads(n, 10);
    ParsesUnsigned(n, LARGEST_INDEX);
    PlainRenders(Numeral(n, 10));
    NthFills(ANYTHING, Attr("nth", Equals, Numeral(n, 10), 1));
    OneCriterion("nth", Equals, Numeral(n, 10), Numeral(n, 10), text);
  }

  lemma EnabledAlone(b: bool, text: string)
    requires text == CriterionText("enabled", Equals, BoolText(b))
    ensures ParseLocator(text) == Ok(ANYTHING.(enabled := Some(b)))
  {
    PlainRenders(BoolText(b));
    EnabledFills(ANYTHING, Attr("enabled", Equals, BoolText(b), 1));
    OneCriterion("enabled", Equals, BoolText(b), BoolText(b), text);
  }

  lemma CheckedAlone(b: bool, text: string)
    requires text == CriterionText("checked", Equals, BoolText(b))
    ensures ParseLocator(text) == Ok(ANYTHING.(checked := Some(b)))
  {
    PlainRenders(BoolText(b));
    CheckedFills(ANYTHING, Attr("checked", Equals, BoolText(b), 1));
    OneCriterion("checked", Equals, BoolText(b), BoolText(b), text);
  }

  lemma SelectedAlone(b: bool, text: string)
    requires text == CriterionText("selected", Equals, BoolText(b))
    ensures ParseLocator(text) == Ok(ANYTHING.(selected := Some(b)))
  {
    PlainRenders(BoolText(b));
    SelectedFills(ANYTHING, Attr("selected", Equals, BoolText(b), 1));
    OneCriterion("selected", Equals, BoolText(b), BoolText(b), text);
  }

  lemma ExpandedAlone(b: bool, text: string)
    requires text == CriterionText("expanded", Equals, BoolText(b))
    ensures ParseLocator(text) == Ok(ANYTHING.(expanded := Some(b)))
  {
    PlainRenders(BoolText(b));
    ExpandedFills(ANYTHING, Attr("expanded", Equals, BoolText(b), 1));
    OneCriterion("expanded", Equals, BoolText(b), BoolText(b), text);
  }

  lemma FocusedAlone(b: bool, text: string)
    requires text == CriterionText("focused", Equals, BoolText(b))
    ensures ParseLocator(text) == Ok(ANYTHING.(focused := Some(b)))
  {
    PlainRenders(BoolText(b));
    FocusedFills(ANYTHING, Attr("focused", Equals, BoolText(b), 1));
    OneCriterion("focused", Equals, BoolText(b), BoolText(b), text);
  }

  /** `=` asks for exactly the text and `~=` for a name that contains it, whatever the text. */
  lemma NameMeans(v: string)
    ensures ParseLocator("[name=" + WriteValue(v) + "]") == Ok(ANYTHING.(name := Some(Exact(v))))
    ensures ParseLocator("[name~=" + WriteValue(v) + "]") == Ok(ANYTHING.(name := Some(NameMatcher.Contains(v))))
  {
    Opens("[name=", "name", Equals, WriteValue(v));
    Opens("[name~=", "name", Op.Contains, WriteValue(v));
    NameAlone(Equals, v, "[name=" + WriteValue(v) + "]");
    NameAlone(Op.Contains, v, "[name~=" + WriteValue(v) + "]");
  }

  /** The other two texts take `=` only. */
  lemma NameKeyMeans(v: string)
    ensures ParseLocator("[name_key=" + WriteValue(v) + "]") == Ok(ANYTHING.(nameKey := Some(v)))
    ensures ParseLocator("[name_key~=" + WriteValue(v) + "]") == Err(SelectorError(2, TakesEquals("name_key")))
  {
    Opens("[name_key=", "name_key", Equals, WriteValue(v));
    Opens("[name_key~=", "name_key", Op.Contains, WriteValue(v));
    NameKeyAlone(Equals, v, "[name_key=" + WriteValue(v) + "]");
    NameKeyAlone(Op.Contains, v, "[name_key~=" + WriteValue(v) + "]");
  }

  lemma TestIdMeans(v: string)
    ensures ParseLocator("[test_id=" + WriteValue(v) + "]") == Ok(ANYTHING.(testId := Some(v)))
    ensures ParseLocator("[test_id~=" + WriteValue(v) + "]") == Err(SelectorError(2, TakesEquals("test_id")))
  {
    Opens("[test_id=", "test_id", Equals, WriteValue(v));
    Opens("[test_id~=", "test_id", Op.Contains, WriteValue(v));
    TestIdAlone(Equals, v, "[test_id=" + WriteValue(v) + "]");
    TestIdAlone(Op.Contains, v, "[test_id~=" + WriteValue(v) + "]");
  }

  lemma NthMeans(n: U32)
    ensures ParseLocator("[nth=" + Numeral(n, 10) + "]") == Ok(ANYTHING.(nth := Some(n)))
  {
    Opens("[nth=", "nth", Equals, Numeral(n, 10));
    NthAlone(n, "[nth=" + Numeral(n, 10) + "]");
  }

  lemma EnabledMeans(b: bool)
    ensures ParseLocator("[enabled=" + (if b then "true" else "false") + "]") == Ok(ANYTHING.(enabled := Some(b)))
  {
    Opens("[enabled=", "enabled", Equals, BoolText(b));
    EnabledAlone(b, "[enabled=" + BoolText(b) + "]");
  }

  lemma CheckedMeans(b: bool)
    ensures ParseLocator("[checked=" + (if b then "true" else "false") + "]") == Ok(ANYTHING.(checked := Some(b)))
  {
    Opens("[checked=", "checked", Equals, BoolText(b));
    CheckedAlone(b, "[checked=" + BoolText(b) + "]");
  }

  lemma SelectedMeans(b: bool)
    ensures ParseLocator("[selected=" + (if b then "true" else "false") + "]") == Ok(ANYTHING.(selected := Some(b)))
  {
    Opens("[selected=", "selected", Equals, BoolText(b));
    SelectedAlone(b, "[selected=" + BoolText(b) + "]");
  }

  lemma ExpandedMeans(b: bool)
    ensures ParseLocator("[expanded=" + (if b then "true" else "false") + "]") == Ok(ANYTHING.(expanded := Some(b)))
  {
    Opens("[expanded=", "expanded", Equals, BoolText(b));
    ExpandedAlone(b, "[expanded=" + BoolText(b) + "]");
  }

  lemma FocusedMeans(b: bool)
    ensures ParseLocator("[focused=" + (if b then "true" else "false") + "]") == Ok(ANYTHING.(focused := Some(b)))
  {
    Opens("[focused=", "focused", Equals, BoolText(b));
    FocusedAlone(b, "[focused=" + BoolText(b) + "]");
  }

  /** The head that asks for a role. */
  predicate Names(head: string, role: Role) {
    || (head == "button" && role.Button?) || (head == "checkbox" && role.Checkbox?)
    || (head == "radio" && role.Radio?) || (head == "radiogroup" && role.RadioGroup?)
    || (head == "textbox" && role.Textbox?) || (head == "combobox" && role.Combobox?)
    || (head == "slider" && role.Slider?) || (head == "spinbutton" && role.SpinButton?)
    || (head == "colorwell" && role.ColorWell?) || (head == "trackball" && role.Trackball?)
    || (head == "tablist" && role.TabList?) || (head == "tab" && role.Tab?)
    || (head == "menubar" && role.MenuBar?) || (head == "menu" && role.Menu?)
    || (head == "menuitem" && role.MenuItem?) || (head == "list" && role.List?)
    || (head == "listitem" && role.ListItem?) || (head == "tree" && role.Tree?)
    || (head == "treeitem" && role.TreeItem?) || (head == "window" && role.Window?)
    || (head == "text" && role.Text?) || (head == "image" && role.Image?)
    || (head == "document" && role.Document?) || (head == "group" && role.Group?)
  }

  lemma NamesIt(head: string, role: Role)
    requires Names(head, role)
    ensures head == RoleName(role)
  {
  }

  lemma OneHead(head: string, role: Role)
    requires head == RoleName(role)
    ensures ParseLocator(head) == Ok(ANYTHING.(role := Some(role)))
  {
    assert WriteItems([]) == "" && head + "" == head;
    StepTextParses(head, Some(role), [], Ok(ANYTHING.(role := Some(role))));
  }

  lemma RoleMeans(head: string, role: Role)
    requires Names(head, role)
    ensures ParseLocator(head) == Ok(ANYTHING.(role := Some(role)))
  {
    NamesIt(head, role);
    OneHead(head, role);
  }

  lemma {:induction false} NoRole(roles: seq<Role>, name: string)
    requires forall role :: RoleName(role) != name
    ensures FindRole(roles, name).None?
  {
    if roles != [] { NoRole(roles[1..], name); }
  }

  /** Any other head is refused, at the first column. */
  lemma UnknownHeadRefused(head: string)
    requires head != "" && IsIdent(head) && forall role :: RoleName(role) != head
    ensures ParseLocator(head) == Err(SelectorError(1, UnknownHead(head)))
  {
    var written := Written(head, []);
    NoRole(ALL_ROLES, head);
    NextItself(head);
    assert head + "" == head;
    assert head != "*" by { assert head[0] in head; }
    WrittenIsOk(head, []);
    WrittenReads(head, 0, 0, written, [], |head|, ReadSteps(head, 0, []));
    assert [] + [written.Read(0)] == [written.Read(0)];
    OneStepParses(head, written.Read(0), UiStep(written.Read(0)));
  }

  lemma ScopedPrints(outer: Locator, own: Locator, l: Locator)
    requires own.within.None? && l == own.(within := Some(outer))
    ensures PrintLocator(l) == PrintLocator(outer) + " >> " + PrintLocator(own)
  {
    assert Own(l) == own == Own(own);
    PrintUnfolds(own);
    PrintUnfolds(l);
    Associates(PrintLocator(outer), " >> ", UiWritten(own).Text());
    assert UiWritten(l) == UiWritten(own);
  }

  /** What stands before `>>` is the scope of what stands behind it. */
  lemma ScopeComesFirst(outer: Locator, own: Locator)
    requires own.within.None?
    ensures ParseLocator(PrintLocator(outer) + " >> " + PrintLocator(own)) == Ok(own.(within := Some(outer)))
  {
    ScopedPrints(outer, own, own.(within := Some(outer)));
    PrintedLocatorParses(own.(within := Some(outer)));
  }
}

/**
 What a world selector means: the criterion that each of its attributes sets, how a position and a radius go together,
 and which attributes are refused, and where.
 */
module WorldMeaning {
  import opened Locators
  import opened SelectorGrammar
  import opened SelectorMeaning
  import opened SelectorSpelling
  import opened SelectorText
  import opened Sequences
  import opened WorldLocators
  import opened Wrappers

  predicate IsIdKey(key: string) { key == "full_id" || key == "owner" }

  predicate IsNumberKey(key: string) { key == "local_id" || key == "nth" || key == "pcode" }

  predicate IsWorldKey(key: string) {
    || key == "own" || key == "name" || key == "hover_text" || key == "near" || key == "radius"
    || IsIdKey(key) || IsNumberKey(key)
  }

  function LargestOf(key: string): nat { if key == "pcode" then 0xFF else LARGEST_INDEX }

  /** A value that the key does not take. */
  predicate WorldUnwanted(t: Spelling, key: string, value: string) {
    || (key == "own" && !IsBool(value))
    || (IsIdKey(key) && t.parseUuid(value).None?)
    || (IsNumberKey(key) && ParseUnsigned(value, LargestOf(key)).None?)
    || (key == "radius" && t.parseFloat(value).None?)
  }

  /** The part between two commas, without the spaces around it, as a number. */
  function Coordinate(t: Spelling, part: string): Option<F32> { t.parseFloat(Trim(part)) }

  /** `own_avatar`, or three numbers between commas. */
  function AnchorFault(t: Spelling, key: string, value: string): Option<Fault> {
    if value == "own_avatar" then None
    else if exists part <- Split(value, ',') :: Coordinate(t, part).None? then Some(Wants(key, value))
    else if |Split(value, ',')| != 3 then Some(ThreeCoordinates(value))
    else None
  }

  /** What is wrong with an attribute by itself. */
  function WorldRefused(t: Spelling, a: Attr): Option<Fault> {
    if !IsWorldKey(a.key) then Some(UnknownAttribute(a.key))
    else if a.op.Contains? && a.key != "name" && a.key != "hover_text" then Some(TakesEquals(a.key))
    else if a.key == "near" then AnchorFault(t, a.key, a.value)
    else if WorldUnwanted(t, a.key, a.value) then Some(Wants(a.key, a.value))
    else None
  }

  function WorldFault(t: Spelling): Faults {
    (attrs, a) =>
      if WorldRefused(t, a).Some? then WorldRefused(t, a)
      else if Lookup(attrs, a.key).Some? then Some(GivenTwice(a.key))
      else None
  }

  function IdSaid(t: Spelling, a: Option<Attr>): Option<Uuid> { if a.None? then None else t.parseUuid(a.value.value) }

  function FloatSaid(t: Spelling, a: Option<Attr>): Option<F32> {
    if a.None? then None else t.parseFloat(a.value.value)
  }

  /** The coordinates in the order x, y, z. */
  function AnchorSaid(t: Spelling, a: Option<Attr>): Option<Anchor> {
    if a.None? then None
    else if a.value.value == "own_avatar" then Some(OwnAvatar)
    else
      var parts := Split(a.value.value, ',');
      if |parts| == 3 && Coordinate(t, parts[0]).Some? && Coordinate(t, parts[1]).Some?
         && Coordinate(t, parts[2]).Some?
      then Some(Point(Coordinate(t, parts[0]).value, Coordinate(t, parts[1]).value, Coordinate(t, parts[2]).value))
      else None
  }

  /** What the attributes of a step with this kind say, before a position and a radius are put together. */
  function DraftSaid(t: Spelling, kind: Option<Kind>, attrs: seq<Attr>): Draft {
    Draft(WorldLocator(kind, BoolSaid(Lookup(attrs, "own")), MatchSaid(Lookup(attrs, "name")),
                       IdSaid(t, Lookup(attrs, "full_id")), NumberSaid(Lookup(attrs, "local_id"), LARGEST_INDEX),
                       IdSaid(t, Lookup(attrs, "owner")), NumberSaid(Lookup(attrs, "pcode"), 0xFF),
                       MatchSaid(Lookup(attrs, "hover_text")), None, NumberSaid(Lookup(attrs, "nth"), LARGEST_INDEX)),
          AnchorSaid(t, Lookup(attrs, "near")), FloatSaid(t, Lookup(attrs, "radius")), AtSaid(Lookup(attrs, "radius")))
  }

  function AtSaid(a: Option<Attr>): Option<nat> { if a.None? then None else Some(a.value.at) }

  function DraftMeaning(t: Spelling, kind: Option<Kind>): seq<Attr> -> Draft { attrs => DraftSaid(t, kind, attrs) }

  lemma DraftSaidMore(t: Spelling, kind: Option<Kind>, attrs: seq<Attr>, a: Attr)
    ensures DraftSaid(t, kind, attrs + [a]) ==
      var d := DraftSaid(t, kind, attrs);
      var l := d.locator;
      Draft(WorldLocator(kind, if a.key == "own" then BoolSaid(Some(a)) else l.own,
                         if a.key == "name" then MatchSaid(Some(a)) else l.name,
                         if a.key == "full_id" then IdSaid(t, Some(a)) else l.fullId,
                         if a.key == "local_id" then NumberSaid(Some(a), LARGEST_INDEX) else l.localId,
                         if a.key == "owner" then IdSaid(t, Some(a)) else l.owner,
                         if a.key == "pcode" then NumberSaid(Some(a), 0xFF) else l.pcode,
                         if a.key == "hover_text" then MatchSaid(Some(a)) else l.hoverText, None,
                         if a.key == "nth" then NumberSaid(Some(a), LARGEST_INDEX) else l.nth),
            if a.key == "near" then AnchorSaid(t, Some(a)) else d.near,
            if a.key == "radius" then FloatSaid(t, Some(a)) else d.radius,
            if a.key == "radius" then Some(a.at) else d.radiusAt)
  {
    LookupMore(attrs, a, "own");
    LookupMore(attrs, a, "name");
    LookupMore(attrs, a, "full_id");
    LookupMore(attrs, a, "local_id");
    LookupMore(attrs, a, "owner");
    LookupMore(attrs, a, "pcode");
    LookupMore(attrs, a, "hover_text");
    LookupMore(attrs, a, "near");
    LookupMore(attrs, a, "radius");
    LookupMore(attrs, a, "nth");
  }

  // ---------------------------------------------------------------------------------
  // Positions.

  lemma {:induction false} AllParse(t: Spelling, parts: seq<string>)
    ensures ParseAll(t, parts).None? <==> exists part <- parts :: Coordinate(t, part).None?
    ensures ParseAll(t, parts).Some? ==> |ParseAll(t, parts).value| == |parts|
    ensures ParseAll(t, parts).Some? ==>
              forall i | 0 <= i < |parts| :: Coordinate(t, parts[i]) == Some(ParseAll(t, parts).value[i])
  {
    if parts != [] {
      AllParse(t, parts[1..]);
      assert parts[0] in parts && forall part <- parts[1..] :: part in parts;
      assert forall part <- parts :: part == parts[0] || part in parts[1..];
    }
  }

  lemma AnchorIs(t: Spelling, a: Attr)
    requires a.op.Equals?
    ensures AnchorOf(t, a) == match AnchorFault(t, a.key, a.value)
                              case Some(fault) => Err(ErrorAt(a.at, fault))
                              case None => if AnchorSaid(t, Some(a)).None? then AnchorOf(t, a)
                                           else Ok(AnchorSaid(t, Some(a)).value)
    ensures AnchorFault(t, a.key, a.value).None? ==> AnchorSaid(t, Some(a)).Some?
  {
    var parts := Split(a.value, ',');
    AllParse(t, parts);
    if |parts| == 3 { assert parts[0] in parts && parts[1] in parts && parts[2] in parts; }
  }

  /** Between the commas stand the parts of a text, and no part has one. */
  function Joined(parts: seq<string>, sep: char): string
    requires parts != []
  {
    if |parts| == 1 then parts[0] else parts[0] + [sep] + Joined(parts[1..], sep)
  }

  lemma JoinedOnto(c: char, parts: seq<string>, sep: char)
    requires parts != []
    ensures Joined([[c] + parts[0]] + parts[1..], sep) == [c] + Joined(parts, sep)
  {
    var more := [[c] + parts[0]] + parts[1..];
    if |parts| > 1 {
      assert more[1..] == parts[1..];
      assert [c] + parts[0] + [sep] + Joined(parts[1..], sep) == [c] + (parts[0] + [sep] + Joined(parts[1..], sep));
    }
  }

  /** The parts are those of `s`. */
  predicate Parts(s: string, sep: char, parts: seq<string>) {
    parts != [] && Joined(parts, sep) == s && forall i | 0 <= i < |parts| :: sep !in parts[i]
  }

  lemma PartsBehindSep(s: string, sep: char, rest: seq<string>)
    requires s != "" && s[0] == sep && Parts(s[1..], sep, rest)
    ensures Parts(s, sep, [""] + rest)
  {
    assert ([""] + rest)[1..] == rest && s == "" + [sep] + s[1..];
  }

  lemma PartsBehind(s: string, sep: char, rest: seq<string>)
    requires s != "" && s[0] != sep && Parts(s[1..], sep, rest)
    ensures Parts(s, sep, [[s[0]] + rest[0]] + rest[1..])
  {
    JoinedOnto(s[0], rest, sep);
    assert s == [s[0]] + s[1..];
  }

  /** Splitting leaves out the separators and nothing else. */
  lemma {:induction false} SplitIs(s: string, sep: char, parts: seq<string>)
    requires parts == Split(s, sep)
    ensures Parts(s, sep, parts)
    decreases |s|
  {
    if s != "" {
      var rest := Split(s[1..], sep);
      SplitIs(s[1..], sep, rest);
      if s[0] == sep {
        PartsBehindSep(s, sep, rest);
      } else {
        PartsBehind(s, sep, rest);
      }
    }
  }

  // ---------------------------------------------------------------------------------
  // Applying one attribute.

  /** An attribute for the slot that is `filled` or not comes to `m`, if nothing is wrong with it. */
  function FillingIn(t: Spelling, a: Attr, filled: bool, m: Draft): Fallible<Draft> {
    if WorldRefused(t, a).Some? then Err(ErrorAt(a.at, WorldRefused(t, a).value))
    else if filled then Err(ErrorAt(a.at, GivenTwice(a.key)))
    else Ok(m)
  }

  lemma OwnFills(t: Spelling, d: Draft, a: Attr)
    requires a.key == "own"
    ensures ApplyWorld(t, d, a)
         == FillingIn(t, a, d.locator.own.Some?, d.(locator := d.locator.(own := BoolSaid(Some(a)))))
  {
  }

  lemma NameFills(t: Spelling, d: Draft, a: Attr)
    requires a.key == "name"
    ensures ApplyWorld(t, d, a)
         == FillingIn(t, a, d.locator.name.Some?, d.(locator := d.locator.(name := MatchSaid(Some(a)))))
  {
  }

  lemma FullIdFills(t: Spelling, d: Draft, a: Attr)
    requires a.key == "full_id"
    ensures ApplyWorld(t, d, a)
         == FillingIn(t, a, d.locator.fullId.Some?, d.(locator := d.locator.(fullId := IdSaid(t, Some(a)))))
  {
  }

  lemma LocalIdFills(t: Spelling, d: Draft, a: Attr)
    requires a.key == "local_id"
    ensures ApplyWorld(t, d, a)
         == FillingIn(t, a, d.locator.localId.Some?,
                      d.(locator := d.locator.(localId := NumberSaid(Some(a), LARGEST_INDEX))))
  {
  }

  lemma OwnerFills(t: Spelling, d: Draft, a: Attr)
    requires a.key == "owner"
    ensures ApplyWorld(t, d, a)
         == FillingIn(t, a, d.locator.owner.Some?, d.(locator := d.locator.(owner := IdSaid(t, Some(a)))))
  {
  }

  lemma PcodeFills(t: Spelling, d: Draft, a: Attr)
    requires a.key == "pcode"
    ensures ApplyWorld(t, d, a)
         == FillingIn(t, a, d.locator.pcode.Some?, d.(locator := d.locator.(pcode := NumberSaid(Some(a), 0xFF))))
  {
  }

  lemma HoverTextFills(t: Spelling, d: Draft, a: Attr)
    requires a.key == "hover_text"
    ensures ApplyWorld(t, d, a)
         == FillingIn(t, a, d.locator.hoverText.Some?, d.(locator := d.locator.(hoverText := MatchSaid(Some(a)))))
  {
  }

  lemma NthFills(t: Spelling, d: Draft, a: Attr)
    requires a.key == "nth"
    ensures ApplyWorld(t, d, a)
         == FillingIn(t, a, d.locator.nth.Some?, d.(locator := d.locator.(nth := NumberSaid(Some(a), LARGEST_INDEX))))
  {
  }

  lemma NearFills(t: Spelling, d: Draft, a: Attr)
    requires a.key == "near"
    ensures ApplyWorld(t, d, a) == FillingIn(t, a, d.near.Some?, d.(near := AnchorSaid(t, Some(a))))
  {
    if a.op.Equals? { AnchorIs(t, a); }
  }

  lemma RadiusFills(t: Spelling, d: Draft, a: Attr)
    requires a.key == "radius"
    ensures ApplyWorld(t, d, a)
         == FillingIn(t, a, d.radius.Some?, d.(radius := FloatSaid(t, Some(a)), radiusAt := Some(a.at)))
  {
  }

  lemma OwnApplies(t: Spelling, kind: Option<Kind>, attrs: seq<Attr>, a: Attr)
    requires a.key == "own"
    ensures ApplyWorld(t, DraftSaid(t, kind, attrs), a) == OneMore(WorldFault(t), DraftMeaning(t, kind), attrs, a)
  {
    OwnFills(t, DraftSaid(t, kind, attrs), a);
    DraftSaidMore(t, kind, attrs, a);
  }

  lemma NameApplies(t: Spelling, kind: Option<Kind>, attrs: seq<Attr>, a: Attr)
    requires a.key == "name"
    ensures ApplyWorld(t, DraftSaid(t, kind, attrs), a) == OneMore(WorldFault(t), DraftMeaning(t, kind), attrs, a)
  {
    NameFills(t, DraftSaid(t, kind, attrs), a);
    DraftSaidMore(t, kind, attrs, a);
  }

  lemma FullIdApplies(t: Spelling, kind: Option<Kind>, attrs: seq<Attr>, a: Attr)
    requires a.key == "full_id" && Faultless(WorldFault(t), attrs, |attrs|)
    ensures ApplyWorld(t, DraftSaid(t, kind, attrs), a) == OneMore(WorldFault(t), DraftMeaning(t, kind), attrs, a)
  {
    FullIdFills(t, DraftSaid(t, kind, attrs), a);
    DraftSaidMore(t, kind, attrs, a);
    if Lookup(attrs, "full_id").Some? { var i := FoundIsFaultless(WorldFault(t), attrs, "full_id"); }
  }

  lemma LocalIdApplies(t: Spelling, kind: Option<Kind>, attrs: seq<Attr>, a: Attr)
    requires a.key == "local_id" && Faultless(WorldFault(t), attrs, |attrs|)
    ensures ApplyWorld(t, DraftSaid(t, kind, attrs), a) == OneMore(WorldFault(t), DraftMeaning(t, kind), attrs, a)
  {
    LocalIdFills(t, DraftSaid(t, kind, attrs), a);
    DraftSaidMore(t, kind, attrs, a);
    if Lookup(attrs, "local_id").Some? { var i := FoundIsFaultless(WorldFault(t), attrs, "local_id"); }
  }

  lemma OwnerApplies(t: Spelling, kind: Option<Kind>, attrs: seq<Attr>, a: Attr)
    requires a.key == "owner" && Faultless(WorldFault(t), attrs, |attrs|)
    ensures ApplyWorld(t, DraftSaid(t, kind, attrs), a) == OneMore(WorldFault(t), DraftMeaning(t, kind), attrs, a)
  {
    OwnerFills(t, DraftSaid(t, kind, attrs), a);
    DraftSaidMore(t, kind, attrs, a);
    if Lookup(attrs, "owner").Some? { var i := FoundIsFaultless(WorldFault(t), attrs, "owner"); }
  }

  lemma PcodeApplies(t: Spelling, kind: Option<Kind>, attrs: seq<Attr>, a: Attr)
    requires a.key == "pcode" && Faultless(WorldFault(t), attrs, |attrs|)
    ensures ApplyWorld(t, DraftSaid(t, kind, attrs), a) == OneMore(WorldFault(t), DraftMeaning(t, kind), attrs, a)
  {
    PcodeFills(t, DraftSaid(t, kind, attrs), a);
    DraftSaidMore(t, kind, attrs, a);
    if Lookup(attrs, "pcode").Some? { var i := FoundIsFaultless(WorldFault(t), attrs, "pcode"); }
  }

  lemma HoverTextApplies(t: Spelling, kind: Option<Kind>, attrs: seq<Attr>, a: Attr)
    requires a.key == "hover_text"
    ensures ApplyWorld(t, DraftSaid(t, kind, attrs), a) == OneMore(WorldFault(t), DraftMeaning(t, kind), attrs, a)
  {
    HoverTextFills(t, DraftSaid(t, kind, attrs), a);
    DraftSaidMore(t, kind, attrs, a);
  }

  lemma NthApplies(t: Spelling, kind: Option<Kind>, attrs: seq<Attr>, a: Attr)
    requires a.key == "nth" && Faultless(WorldFault(t), attrs, |attrs|)
    ensures ApplyWorld(t, DraftSaid(t, kind, attrs), a) == OneMore(WorldFault(t), DraftMeaning(t, kind), attrs, a)
  {
    NthFills(t, DraftSaid(t, kind, attrs), a);
    DraftSaidMore(t, kind, attrs, a);
    if Lookup(attrs, "nth").Some? { var i := FoundIsFaultless(WorldFault(t), attrs, "nth"); }
  }

  lemma NearApplies(t: Spelling, kind: Option<Kind>, attrs: seq<Attr>, a: Attr)
    requires a.key == "near" && Faultless(WorldFault(t), attrs, |attrs|)
    ensures ApplyWorld(t, DraftSaid(t, kind, attrs), a) == OneMore(WorldFault(t), DraftMeaning(t, kind), attrs, a)
  {
    NearFills(t, DraftSaid(t, kind, attrs), a);
    DraftSaidMore(t, kind, attrs, a);
    if Lookup(attrs, "near").Some? { var i := FoundIsFaultless(WorldFault(t), attrs, "near"); }
  }

  lemma RadiusApplies(t: Spelling, kind: Option<Kind>, attrs: seq<Attr>, a: Attr)
    requires a.key == "radius" && Faultless(WorldFault(t), attrs, |attrs|)
    ensures ApplyWorld(t, DraftSaid(t, kind, attrs), a) == OneMore(WorldFault(t), DraftMeaning(t, kind), attrs, a)
  {
    RadiusFills(t, DraftSaid(t, kind, attrs), a);
    DraftSaidMore(t, kind, attrs, a);
    if Lookup(attrs, "radius").Some? { var i := FoundIsFaultless(WorldFault(t), attrs, "radius"); }
  }

  lemma UnknownApplies(t: Spelling, kind: Option<Kind>, attrs: seq<Attr>, a: Attr)
    requires !IsWorldKey(a.key)
    ensures ApplyWorld(t, DraftSaid(t, kind, attrs), a) == OneMore(WorldFault(t), DraftMeaning(t, kind), attrs, a)
  {
    assert WorldKeyOf(a.key).None?;
    assert WorldRefused(t, a) == Some(UnknownAttribute(a.key));
  }

  lemma WorldApplies(t: Spelling, kind: Option<Kind>, attrs: seq<Attr>, a: Attr)
    requires Faultless(WorldFault(t), attrs, |attrs|)
    ensures AppliesOne(Applier(t), WorldFault(t), DraftMeaning(t, kind), attrs, a)
  {
    if a.key == "own" {
      OwnApplies(t, kind, attrs, a);
    } else if a.key == "name" {
      NameApplies(t, kind, attrs, a);
    } else if a.key == "full_id" {
      FullIdApplies(t, kind, attrs, a);
    } else if a.key == "local_id" {
      LocalIdApplies(t, kind, attrs, a);
    } else if a.key == "owner" {
      OwnerApplies(t, kind, attrs, a);
    } else if a.key == "pcode" {
      PcodeApplies(t, kind, attrs, a);
    } else if a.key == "hover_text" {
      HoverTextApplies(t, kind, attrs, a);
    } else if a.key == "nth" {
      NthApplies(t, kind, attrs, a);
    } else if a.key == "near" {
      NearApplies(t, kind, attrs, a);
    } else if a.key == "radius" {
      RadiusApplies(t, kind, attrs, a);
    } else {
      UnknownApplies(t, kind, attrs, a);
    }
  }

  lemma WorldAttributesMean(t: Spelling, kind: Option<Kind>, attrs: seq<Attr>, r: Fallible<Draft>)
    requires r == Applied(Applier(t), Draft(ANYTHING_THERE.(kind := kind), None, None, None), attrs)
    ensures Gives(WorldFault(t), DraftMeaning(t, kind), attrs, r)
  {
    forall front, a | Faultless(WorldFault(t), front, |front|)
      ensures AppliesOne(Applier(t), WorldFault(t), DraftMeaning(t, kind), front, a)
    {
      WorldApplies(t, kind, front, a);
    }
    assert DraftMeaning(t, kind)([]) == Draft(ANYTHING_THERE.(kind := kind), None, None, None);
    AttributesMean(Applier(t), WorldFault(t), DraftMeaning(t, kind), attrs, r);
  }

  // ---------------------------------------------------------------------------------
  // A selector as it is written.

  /** A radius needs a position to be measured from. */
  function WorldOf(t: Spelling, kind: Option<Kind>, attrs: seq<Attr>): Fallible<WorldLocator> {
    var d := DraftSaid(t, kind, attrs);
    if d.near.Some? then Ok(d.locator.(near := Some(Near(d.near.value, d.radius))))
    else if Lookup(attrs, "radius").Some? then Err(ErrorAt(Lookup(attrs, "radius").value.at, RadiusNeedsNear))
    else Ok(d.locator)
  }

  /** What the attributes mean, or what is wrong with the first that is refused. */
  ghost predicate WorldGives(t: Spelling, kind: Option<Kind>, attrs: seq<Attr>, r: Fallible<WorldLocator>) {
    if Faultless(WorldFault(t), attrs, |attrs|) then r == WorldOf(t, kind, attrs)
    else r.Err? && exists i :: RefusedAt(WorldFault(t), attrs, i, r.error)
  }

  function FinishedAfter(r: Fallible<Draft>): Fallible<WorldLocator> {
    var d :- r;
    Finished(d)
  }

  lemma FinishedGives(t: Spelling, kind: Option<Kind>, attrs: seq<Attr>, r: Fallible<Draft>)
    requires Gives(WorldFault(t), DraftMeaning(t, kind), attrs, r)
    ensures WorldGives(t, kind, attrs, FinishedAfter(r))
  {
    if r.Err? {
      var i: nat :| RefusedAt(WorldFault(t), attrs, i, r.error);
      assert WorldFault(t)(attrs[..i], attrs[i]).Some?;
    }
  }

  predicate KindIs(head: string, kind: Option<Kind>) {
    if kind.None? then head == "" || head == "*"
    else if kind.value.Avatar? then head == "avatar"
    else if kind.value.Object? then head == "object"
    else head == "attachment"
  }

  lemma KindReads(head: string, kind: Option<Kind>)
    requires KindIs(head, kind)
    ensures head == "*" || IsIdent(head)
    ensures var h := HeadOf(head, 0); if kind.Some? then h.Some? && FindKind(h.value.0) == kind else h.None?
  {
  }

  lemma WorldStepComesTo(t: Spelling, head: string, kind: Option<Kind>, attrs: seq<Attr>, r: Fallible<Draft>)
    requires KindIs(head, kind)
    requires r == Applied(Applier(t), Draft(ANYTHING_THERE.(kind := kind), None, None, None), attrs)
    ensures WorldStep(t, Step(HeadOf(head, 0), attrs)) == FinishedAfter(r)
  {
    KindReads(head, kind);
  }

  /** A selector of one step comes to its attributes applied to a locator with its kind. */
  lemma WorldTextParses(t: Spelling, head: string, kind: Option<Kind>, items: seq<Item>, r: Fallible<Draft>)
    requires KindIs(head, kind) && AllWritable(items) && (head == "" ==> items != [])
    requires r == Applied(Applier(t), Draft(ANYTHING_THERE.(kind := kind), None, None, None),
                          ItemAttrs([], items, |head|))
    ensures ParseWorld(t, head + WriteItems(items)) == FinishedAfter(r)
  {
    var s, written := head + WriteItems(items), Written(head, items);
    KindReads(head, kind);
    WrittenIsOk(head, items);
    NextItself(s);
    WrittenReads(s, 0, 0, written, [], |s|, ReadSteps(s, 0, []));
    assert [] + [written.Read(0)] == [written.Read(0)];
    WorldStepComesTo(t, head, kind, ItemAttrs([], items, |head|), r);
  }

  /** However it is spelled, a world selector is read as what its criteria mean, or refused at the first key at
      fault. */
  lemma WorldSelectorMeans(t: Spelling, head: string, kind: Option<Kind>, criteria: seq<Criterion>)
    requires KindIs(head, kind) && CriteriaOk(criteria) && (head == "" ==> criteria != [])
    ensures WorldGives(t, kind, AttrsOf(criteria, |head|), ParseWorld(t, head + CriteriaText(criteria)))
  {
    var attrs := AttrsOf(criteria, |head|);
    var r := Applied(Applier(t), Draft(ANYTHING_THERE.(kind := kind), None, None, None), attrs);
    ItemsWritten(criteria, ItemsOf(criteria));
    ItemsAreAttrs(criteria, ItemsOf(criteria), [], |head|, attrs);
    assert [] + attrs == attrs;
    WorldTextParses(t, head, kind, ItemsOf(criteria), r);
    WorldAttributesMean(t, kind, attrs, r);
    FinishedGives(t, kind, attrs, r);
  }

  /** Any other head is refused, at the first column. */
  lemma UnknownKindRefused(t: Spelling, head: string)
    requires head != "" && IsIdent(head) && head != "avatar" && head != "object" && head != "attachment"
    ensures ParseWorld(t, head) == Err(SelectorError(1, UnknownHead(head)))
  {
    var written := Written(head, []);
    NextItself(head);
    assert head + "" == head;
    assert head != "*" by { assert head[0] in head; }
    WrittenIsOk(head, []);
    WrittenReads(head, 0, 0, written, [], |head|, ReadSteps(head, 0, []));
    assert [] + [written.Read(0)] == [written.Read(0)];
  }

  lemma TwoSteps(l: Locator)
    requires l.within.Some?
    ensures |StepsOf(l)| >= 2
  {
    var front := StepsOf(l.within.value);
    assert front != [] && |StepsOf(l)| == |front| + 1;
  }

  /** Things in the world have no scope. */
  lemma OneStepAllowed(t: Spelling, outer: Locator, own: Locator)
    requires own.within.None?
    ensures ParseWorld(t, PrintLocator(outer) + " >> " + PrintLocator(own)) == Err(SelectorError(1, OneStepOnly))
  {
    var l := own.(within := Some(outer));
    var s := PrintLocator(l);
    ScopedPrints(outer, own, l);
    NextItself(s);
    PrintReads(s, l, s, |s|, ReadSteps(s, 0, []));
    TwoSteps(l);
  }

  // ---------------------------------------------------------------------------------
  // One criterion at a time.

  lemma OneWorldCriterion(t: Spelling, key: string, op: Op, valueText: string, value: string, text: string,
                          r: Fallible<Draft>)
    requires key != "" && IsIdent(key) && Renders(valueText, value)
    requires text == CriterionText(key, op, valueText) && r == ApplyWorld(t, EMPTY_DRAFT, Attr(key, op, value, 1))
    ensures ParseWorld(t, text) == FinishedAfter(r)
  {
    var item, a := Bracketed(key, op, value, valueText), Attr(key, op, value, 1);
    BracketedIsWritable(key, op, value, valueText);
    OneItemIs(item, text, a);
    assert [a][..0] == [] && Applied(Applier(t), EMPTY_DRAFT, [a]) == r;
    assert Draft(ANYTHING_THERE.(kind := None), None, None, None) == EMPTY_DRAFT && "" + text == text;
    WorldTextParses(t, "", None, [item], r);
  }

  lemma WorldNameAlone(t: Spelling, op: Op, v: string, text: string)
    requires text == CriterionText("name", op, WriteValue(v))
    ensures ParseWorld(t, text)
         == Ok(ANYTHING_THERE.(name := Some(if op.Equals? then Exact(v) else NameMatcher.Contains(v))))
  {
    WriteValueRenders(v);
    NameFills(t, EMPTY_DRAFT, Attr("name", op, v, 1));
    OneWorldCriterion(t, "name", op, WriteValue(v), v, text, ApplyWorld(t, EMPTY_DRAFT, Attr("name", op, v, 1)));
  }

  lemma HoverTextAlone(t: Spelling, op: Op, v: string, text: string)
    requires text == CriterionText("hover_text", op, WriteValue(v))
    ensures ParseWorld(t, text)
         == Ok(ANYTHING_THERE.(hoverText := Some(if op.Equals? then Exact(v) else NameMatcher.Contains(v))))
  {
    WriteValueRenders(v);
    HoverTextFills(t, EMPTY_DRAFT, Attr("hover_text", op, v, 1));
    OneWorldCriterion(t, "hover_text", op, WriteValue(v), v, text,
                      ApplyWorld(t, EMPTY_DRAFT, Attr("hover_text", op, v, 1)));
  }

  /** `=` asks for exactly the text and `~=` for one that contains it, in names and in hover texts. */
  lemma WorldNameMeans(t: Spelling, v: string)
    ensures ParseWorld(t, "[name=" + WriteValue(v) + "]") == Ok(ANYTHING_THERE.(name := Some(Exact(v))))
    ensures ParseWorld(t, "[name~=" + WriteValue(v) + "]")
         == Ok(ANYTHING_THERE.(name := Some(NameMatcher.Contains(v))))
  {
    Opens("[name=", "name", Equals, WriteValue(v));
    Opens("[name~=", "name", Op.Contains, WriteValue(v));
    WorldNameAlone(t, Equals, v, "[name=" + WriteValue(v) + "]");
    WorldNameAlone(t, Op.Contains, v, "[name~=" + WriteValue(v) + "]");
  }

  lemma HoverTextMeans(t: Spelling, v: string)
    ensures ParseWorld(t, "[hover_text=" + WriteValue(v) + "]") == Ok(ANYTHING_THERE.(hoverText := Some(Exact(v))))
    ensures ParseWorld(t, "[hover_text~=" + WriteValue(v) + "]")
         == Ok(ANYTHING_THERE.(hoverText := Some(NameMatcher.Contains(v))))
  {
    Opens("[hover_text=", "hover_text", Equals, WriteValue(v));
    Opens("[hover_text~=", "hover_text", Op.Contains, WriteValue(v));
    HoverTextAlone(t, Equals, v, "[hover_text=" + WriteValue(v) + "]");
    HoverTextAlone(t, Op.Contains, v, "[hover_text~=" + WriteValue(v) + "]");
  }
}

/**
 The scanner that reads selectors: a cursor over their characters whose methods are proved
 to read what the grammar says, and the loops that turn the steps read into a UI or a
 world locator.
 */
module SelectorScanner {
  import opened Wrappers
  import opened SelectorText
  import opened SelectorGrammar
  import opened Locators
  import WL = WorldLocators

  /** A method's outcome and where it left the cursor agree with what the grammar reads. */
  predicate Agrees<T(==)>(spec: Read<T>, r: Fallible<T>, pos: nat) {
    match spec
    case Ok(read) => r.Ok? && r.value == read.0 && pos == read.1
    case Err(e) => r == Err(e)
  }

  lemma NextTwo(s: string, pos: nat, a: char, b: char)
    ensures Next(s, pos, [a, b]) <==> pos + 1 < |s| && s[pos] == a && s[pos + 1] == b
  {
    if Next(s, pos, [a, b]) { assert [a, b][0] == a && [a, b][1] == b; }
  }

  class Scanner {
    const chars: string
    var pos: nat

    predicate Valid()
      reads this`pos
    {
      pos <= |chars|
    }

    constructor (input: string)
      ensures Valid() && chars == input && pos == 0
    {
      chars := input;
      pos := 0;
    }

    /** Looks one character ahead; the cursor stays. */
    function Peek(): (r: Option<char>)
      reads this`pos
      ensures r.Some? <==> pos < |chars|
      ensures r.Some? ==> r.value == chars[pos]
    {
      if pos < |chars| then Some(chars[pos]) else None
    }

    method Bump() returns (r: Option<char>)
      requires Valid()
      modifies this`pos
      ensures Valid() && r == old(Peek()) && pos == old(pos) + (if r.Some? then 1 else 0)
    {
      r := Peek();
      if r.Some? {
        pos := pos + 1;
      }
    }

    predicate AtEnd()
      reads this`pos
    {
      pos >= |chars|
    }

    /** Moves over `text` where the input goes on with it, and otherwise not at all. */
    method Eat(text: string) returns (ate: bool)
      requires Valid()
      modifies this`pos
      ensures Valid() && ate == Next(chars, old(pos), text) && pos == old(pos) + (if ate then |text| else 0)
    {
      var k := 0;
      while k < |text| && pos + k < |chars| && chars[pos + k] == text[k]
        invariant 0 <= k <= |text| && pos + k <= |chars|
        invariant forall i | 0 <= i < k :: chars[pos + i] == text[i]
      {
        k := k + 1;
      }
      ate := k == |text|;
      assert !ate ==> pos + k >= |chars| || chars[pos + k] != text[k];
      if ate {
        pos := pos + |text|;
      }
    }

    method EatChar(c: char) returns (ate: bool)
      requires Valid()
      modifies this`pos
      ensures Valid() && pos == old(pos) + (if ate then 1 else 0)
      ensures ate <==> old(pos) < |chars| && chars[old(pos)] == c
    {
      NextChar(chars, pos, c);
      ate := Eat([c]);
    }

    method SkipSpace()
      requires Valid()
      modifies this`pos
      ensures Valid() && pos == SpaceEnd(chars, old(pos))
    {
      while pos < |chars| && IsSpace(chars[pos])
        invariant Valid() && SpaceEnd(chars, pos) == SpaceEnd(chars, old(pos))
        decreases |chars| - pos
      {
        pos := pos + 1;
      }
    }

    method Ident() returns (ident: string)
      requires Valid()
      modifies this`pos
      ensures Valid() && pos == IdentEnd(chars, old(pos)) && ident == chars[old(pos)..pos]
    {
      ident := "";
      while pos < |chars| && IsIdentChar(chars[pos])
        invariant old(pos) <= pos <= |chars| && IdentEnd(chars, pos) == IdentEnd(chars, old(pos))
        invariant ident == chars[old(pos)..pos]
        decreases |chars| - pos
      {
        ident := ident + [chars[pos]];
        pos := pos + 1;
      }
    }

    /** Reads the digits behind the brace of an escape that starts at `at`, and the brace that closes it. */
    method HexDigits(at: nat) returns (r: Fallible<string>)
      requires Valid() && at < pos
      modifies this`pos
      ensures Valid() && Agrees(ReadHex(chars, old(pos), at, ""), r, pos)
    {
      var hex := "";
      while true
        invariant Valid() && at < pos && IsNumeral(hex, 16)
        invariant ReadHex(chars, pos, at, hex) == ReadHex(chars, old(pos), at, "")
        decreases |chars| - pos
      {
        var next := Bump();
        match next
        case None =>
          return Err(ErrorAt(at, MalformedEscape));
        case Some(c) =>
          if c == '}' {
            return Ok(hex);
          }
          if !IsHexDigit(c) {
            return Err(ErrorAt(at, MalformedEscape));
          }
          hex := hex + [c];
      }
    }

    /** Reads on behind a backslash. */
    method Escape() returns (r: Fallible<char>)
      requires Valid() && pos > 0
      modifies this`pos
      ensures Valid() && Agrees(ReadEscape(chars, old(pos)), r, pos)
    {
      var at := pos - 1;
      var next := Bump();
      if next == Some('"') || next == Some('\\') {
        return Ok(next.value);
      }
      if next == Some('n') {
        return Ok('\n');
      }
      if next == Some('r') {
        return Ok('\r');
      }
      if next == Some('t') {
        return Ok('\t');
      }
      if next != Some('u') {
        return Err(ErrorAt(at, UnknownEscape));
      }
      r := UnicodeEscape(at);
    }

    method UnicodeEscape(at: nat) returns (r: Fallible<char>)
      requires Valid() && pos == at + 2 && at + 1 < |chars| && chars[at + 1] == 'u'
      modifies this`pos
      ensures Valid() && Agrees(ReadEscape(chars, at + 1), r, pos)
    {
      var open := Eat("{");
      if !open {
        return Err(ErrorAt(pos, ExpectedBrace));
      }
      var hex := HexDigits(at);
      match hex
      case Err(e) =>
        return Err(e);
      case Ok(digits) =>
        match CharOf(digits) {
          case None =>
            return Err(ErrorAt(at, NoCharacter(digits)));
          case Some(c) =>
            return Ok(c);
        }
    }

    /** Reads from an opening quote to the quote that ends the string, and yields what it spells. */
    method Quoted() returns (r: Fallible<string>)
      requires Valid() && Peek() == Some('"')
      modifies this`pos
      ensures Valid() && Agrees(ReadQuoted(chars, old(pos) + 1, old(pos), ""), r, pos)
    {
      var start := pos;
      var quote := Bump();
      var value := "";
      while true
        invariant Valid() && start < pos
        invariant ReadQuoted(chars, pos, start, value) == ReadQuoted(chars, start + 1, start, "")
        decreases |chars| - pos
      {
        var next := Bump();
        if next.None? {
          return Err(ErrorAt(start, UnclosedQuote));
        }
        if next == Some('"') {
          return Ok(value);
        }
        if next == Some('\\') {
          var c := Escape();
          match c
          case Err(e) =>
            return Err(e);
          case Ok(escaped) =>
            value := value + [escaped];
        } else {
          value := value + [next.value];
        }
      }
    }

    /** A value written without quotes. */
    method Bare(key: string) returns (r: Fallible<string>)
      requires Valid()
      modifies this`pos
      ensures Valid() && Agrees(ReadBareValue(chars, old(pos), key), r, pos)
    {
      var start := pos;
      var value := "";
      while true
        invariant start <= pos <= |chars| && value == chars[start..pos]
        invariant CloseAt(chars, pos) == CloseAt(chars, start)
        decreases |chars| - pos
      {
        var next := Bump();
        if next.None? {
          return Err(ErrorAt(start, UnclosedBracket));
        }
        if next == Some(']') {
          break;
        }
        value := value + [next.value];
      }
      value := Trim(value);
      if value == "" {
        return Err(ErrorAt(start, ExpectedValue(key)));
      }
      return Ok(value);
    }

    method QuotedValue() returns (r: Fallible<string>)
      requires Valid() && Peek() == Some('"')
      modifies this`pos
      ensures Valid() && Agrees(ReadQuotedValue(chars, old(pos)), r, pos)
    {
      r := Quoted();
      if r.Ok? {
        SkipSpace();
        var close := Eat("]");
        if !close {
          return Err(ErrorAt(pos, ExpectedClose));
        }
      }
    }

    method Value(key: string) returns (r: Fallible<string>)
      requires Valid()
      modifies this`pos
      ensures Valid() && Agrees(ReadValue(chars, old(pos), key), r, pos)
    {
      if Peek() == Some('"') {
        r := QuotedValue();
      } else {
        r := Bare(key);
      }
    }

    method Operator() returns (op: Option<Op>)
      requires Valid()
      modifies this`pos
      ensures Valid()
      ensures match ReadOp(chars, old(pos))
              case None => op.None? && pos == old(pos)
              case Some(read) => op == Some(read.0) && pos == read.1
    {
      NextTwo(chars, pos, '~', '=');
      var contains := Eat("~=");
      if contains {
        return Some(Op.Contains);
      }
      var equals := EatChar('=');
      return if equals then Some(Equals) else None;
    }

    /** Reads on behind an opening bracket, up to and over the one that closes it. */
    method Attribute() returns (r: Fallible<Attr>)
      requires Valid()
      modifies this`pos
      ensures Valid() && Agrees(ReadAttr(chars, old(pos)), r, pos)
    {
      SkipSpace();
      var at := pos;
      var key := Ident();
      if key == "" {
        return Err(ErrorAt(pos, ExpectedKey));
      }
      SkipSpace();
      var op := Operator();
      if op.None? {
        return Err(ErrorAt(pos, ExpectedOp(key)));
      }
      SkipSpace();
      var value := Value(key);
      match value
      case Err(e) =>
        return Err(e);
      case Ok(v) =>
        return Ok(Attr(key, op.value, v, at));
    }

    method Attributes() returns (r: Fallible<seq<Attr>>)
      requires Valid()
      modifies this`pos
      ensures Valid() && Agrees(ReadAttrs(chars, old(pos), []), r, pos)
    {
      var attrs: seq<Attr> := [];
      while true
        invariant Valid() && ReadAttrs(chars, pos, attrs) == ReadAttrs(chars, old(pos), [])
        decreases |chars| - pos
      {
        SkipSpace();
        var open := EatChar('[');
        if !open {
          return Ok(attrs);
        }
        var attr := Attribute();
        match attr
        case Err(e) =>
          return Err(e);
        case Ok(a) =>
          attrs := attrs + [a];
      }
    }

    /** Reads a step, which has a head, a star or at least one attribute. */
    method OneStep() returns (r: Fallible<Step>)
      requires Valid()
      modifies this`pos
      ensures Valid() && Agrees(ReadStep(chars, old(pos)), r, pos)
    {
      var start, head := pos, None;
      var star := EatChar('*');
      if !star {
        var ident := Ident();
        if ident != "" {
          head := Some((ident, start));
        }
      }
      assert ReadHead(chars, start) == (head, pos, star);
      var attrs := Attributes();
      match attrs
      case Err(e) =>
        return Err(e);
      case Ok(a) =>
        if head.None? && !star && a == [] {
          return Err(ErrorAt(pos, ExpectedHead));
        }
        return Ok(Step(head, a));
    }

    /** Reads steps to the end of the input. */
    method Selector() returns (r: Fallible<seq<Step>>)
      requires Valid()
      modifies this`pos
      ensures Valid() && Agrees(ReadSteps(chars, old(pos), []), r, pos)
    {
      var steps: seq<Step> := [];
      while true
        invariant Valid() && ReadSteps(chars, pos, steps) == ReadSteps(chars, old(pos), [])
        decreases |chars| - pos
      {
        SkipSpace();
        var step := OneStep();
        match step {
          case Err(e) =>
            return Err(e);
          case Ok(x) =>
            steps := steps + [x];
        }
        SkipSpace();
        if AtEnd() {
          return Ok(steps);
        }
        var more := Eat(">>");
        if !more {
          return Err(ErrorAt(pos, ExpectedJoin));
        }
      }
    }
  }

  // ---------------------------------------------------------------------------------
  // From the steps to a locator.

  method FillLocator(step: Step) returns (r: Fallible<Locator>)
    ensures r == UiStep(step)
  {
    var locator := ANYTHING;
    if step.head.Some? {
      var role := FindRole(ALL_ROLES, step.head.value.0);
      if role.None? {
        return Err(ErrorAt(step.head.value.1, UnknownHead(step.head.value.0)));
      }
      locator := locator.(role := role);
    }
    r := FillSlots(locator, step.attrs);
  }

  method FillSlots(base: Locator, attrs: seq<Attr>) returns (r: Fallible<Locator>)
    ensures r == Applied(ApplyUi, base, attrs)
  {
    var locator, k := base, 0;
    while k < |attrs|
      invariant 0 <= k <= |attrs| && Applied(ApplyUi, base, attrs[..k]) == Ok(locator)
    {
      AppliedMore(ApplyUi, base, attrs, k);
      var filled := ApplyUi(locator, attrs[k]);
      if filled.Err? {
        AppliedStops(ApplyUi, base, attrs, k + 1);
        return filled;
      }
      locator, k := filled.value, k + 1;
    }
    assert attrs[..k] == attrs;
    return Ok(locator);
  }

  lemma AppliedMore<L>(apply: (L, Attr) -> Fallible<L>, base: L, attrs: seq<Attr>, k: nat)
    requires k < |attrs|
    ensures Applied(apply, base, attrs[..k + 1])
         == match Applied(apply, base, attrs[..k]) case Ok(l) => apply(l, attrs[k]) case Err(e) => Err(e)
  {
    assert attrs[..k + 1][..k] == attrs[..k];
  }

  /** The first failure is the outcome. */
  lemma {:induction false} AppliedStops<L>(apply: (L, Attr) -> Fallible<L>, base: L, attrs: seq<Attr>, k: nat)
    requires k <= |attrs| && Applied(apply, base, attrs[..k]).Err?
    ensures Applied(apply, base, attrs) == Applied(apply, base, attrs[..k])
    decreases |attrs| - k
  {
    if k == |attrs| {
      assert attrs[..k] == attrs;
    } else {
      AppliedMore(apply, base, attrs, k);
      AppliedStops(apply, base, attrs, k + 1);
    }
  }

  lemma NestedStep(steps: seq<Step>, k: nat)
    requires k < |steps|
    ensures Nested(steps[..k + 1])
         == match Nested(steps[..k])
            case Err(e) => Err(e)
            case Ok(scope) =>
              match UiStep(steps[k])
              case Err(e) => Err(e)
              case Ok(own) => Ok(Some(if scope.Some? then own.(within := scope) else own))
  {
    assert steps[..k + 1][..k] == steps[..k];
  }

  lemma {:induction false} NestedStops(steps: seq<Step>, k: nat)
    requires k <= |steps| && Nested(steps[..k]).Err?
    ensures Nested(steps) == Nested(steps[..k])
    decreases |steps| - k
  {
    if k == |steps| {
      assert steps[..k] == steps;
    } else {
      NestedStep(steps, k);
      NestedStops(steps, k + 1);
    }
  }

  /** Reads a selector as a UI locator, each step scoped to the one before it. */
  method LocatorFromString(input: string) returns (r: Fallible<Locator>)
    ensures r == ParseLocator(input)
  {
    var scanner := new Scanner(input);
    var read := scanner.Selector();
    if read.Err? {
      return Err(read.error);
    }
    r := NestSteps(read.value);
  }

  method NestSteps(steps: seq<Step>) returns (r: Fallible<Locator>)
    ensures r == match Nested(steps)
                 case Err(e) => Err(e)
                 case Ok(l) => if l.None? then Err(ErrorAt(0, EmptySelector)) else Ok(l.value)
  {
    var locator, k := None, 0;
    while k < |steps|
      invariant 0 <= k <= |steps| && Nested(steps[..k]) == Ok(locator)
    {
      NestedStep(steps, k);
      var own := FillLocator(steps[k]);
      if own.Err? {
        NestedStops(steps, k + 1);
        return own;
      }
      locator := Some(if locator.Some? then own.value.(within := locator) else own.value);
      k := k + 1;
    }
    assert steps[..k] == steps;
    return if locator.None? then Err(ErrorAt(0, EmptySelector)) else Ok(locator.value);
  }

  /** Reads a selector of one step as a world locator. */
  method WorldLocatorFromString(t: WL.Spelling, input: string) returns (r: Fallible<WL.WorldLocator>)
    ensures r == WL.ParseWorld(t, input)
  {
    var scanner := new Scanner(input);
    var read := scanner.Selector();
    if read.Err? {
      return Err(read.error);
    }
    if |read.value| != 1 {
      return Err(ErrorAt(0, OneStepOnly));
    }
    r := FillWorld(t, read.value[0]);
  }

  method FillWorld(t: WL.Spelling, step: Step) returns (r: Fallible<WL.WorldLocator>)
    ensures r == WL.WorldStep(t, step)
  {
    var kind := None;
    if step.head.Some? {
      kind := WL.FindKind(step.head.value.0);
      if kind.None? {
        return Err(ErrorAt(step.head.value.1, UnknownHead(step.head.value.0)));
      }
    }
    var filled := FillDraft(t, WL.Draft(WL.ANYTHING_THERE.(kind := kind), None, None, None), step.attrs);
    return match filled case Err(e) => Err(e) case Ok(d) => WL.Finished(d);
  }

  method FillDraft(t: WL.Spelling, base: WL.Draft, attrs: seq<Attr>) returns (r: Fallible<WL.Draft>)
    ensures r == Applied(WL.Applier(t), base, attrs)
  {
    var draft, k := base, 0;
    while k < |attrs|
      invariant 0 <= k <= |attrs| && Applied(WL.Applier(t), base, attrs[..k]) == Ok(draft)
    {
      AppliedMore(WL.Applier(t), base, attrs, k);
      var filled := WL.ApplyWorld(t, draft, attrs[k]);
      if filled.Err? {
        AppliedStops(WL.Applier(t), base, attrs, k + 1);
        return filled;
      }
      draft, k := filled.value, k + 1;
    }
    assert attrs[..k] == attrs;
    return Ok(draft);
  }
}

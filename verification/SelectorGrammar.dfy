/**
 The selector grammar over the characters of a selector: what each production reads from a
 position, where it stops, and which column its error names; and what the printer writes
 for a value, an attribute and a step, with the proof that it reads back.
 */
module SelectorGrammar {
  import opened SelectorText
  import opened Sequences
  import opened Wrappers

  datatype Op = Equals | Contains

  /** One `[key=value]`, as written, its name starting at `at`. */
  datatype Attr = Attr(key: string, op: Op, value: string, at: nat)

  /** One step, as written; no head for `*` or none. */
  datatype Step = Step(head: Option<(string, nat)>, attrs: seq<Attr>)

  datatype Fault =
    | ExpectedJoin | ExpectedHead | ExpectedKey | ExpectedOp(key: string) | ExpectedClose | ExpectedValue(key: string)
    | UnclosedBracket | UnclosedQuote | UnknownEscape | ExpectedBrace | MalformedEscape | NoCharacter(hex: string)
    | UnknownHead(head: string) | UnknownAttribute(key: string) | GivenTwice(key: string) | TakesEquals(key: string)
    | Wants(key: string, value: string) | ThreeCoordinates(value: string) | RadiusNeedsNear | OneStepOnly
    | EmptySelector

  datatype SelectorError = SelectorError(column: nat, fault: Fault)

  function ErrorAt(at: nat, fault: Fault): SelectorError { SelectorError(at + 1, fault) }

  type Read<T> = Result<(T, nat), SelectorError>

  /** A read from `pos` moved on within `s`, or names a column of `s` or the one after it. */
  predicate InBounds<T>(s: string, pos: nat, r: Read<T>) {
    match r
    case Ok(read) => pos <= read.1 <= |s|
    case Err(e) => 1 <= e.column <= |s| + 1
  }

  /** `text` comes next at `pos`. */
  predicate Next(s: string, pos: nat, text: string) {
    pos + |text| <= |s| && forall i {:trigger text[i]} | 0 <= i < |text| :: s[pos + i] == text[i]
  }

  function SpaceEnd(s: string, pos: nat): (end: nat)
    requires pos <= |s|
    ensures pos <= end <= |s|
    decreases |s| - pos
  {
    if pos < |s| && IsSpace(s[pos]) then SpaceEnd(s, pos + 1) else pos
  }

  function IdentEnd(s: string, pos: nat): (end: nat)
    requires pos <= |s|
    ensures pos <= end <= |s|
    decreases |s| - pos
  {
    if pos < |s| && IsIdentChar(s[pos]) then IdentEnd(s, pos + 1) else pos
  }

  /** The position of the next `]`, or the end. */
  function CloseAt(s: string, pos: nat): (end: nat)
    requires pos <= |s|
    ensures pos <= end <= |s| && (end < |s| ==> s[end] == ']')
    decreases |s| - pos
  {
    if pos < |s| && s[pos] != ']' then CloseAt(s, pos + 1) else pos
  }

  function ReadHex(s: string, pos: nat, at: nat, hex: string): (r: Read<string>)
    requires at < pos <= |s| && IsNumeral(hex, 16)
    ensures InBounds(s, pos, r) && (r.Ok? ==> IsNumeral(r.value.0, 16))
    decreases |s| - pos
  {
    if pos < |s| && s[pos] == '}' then Ok((hex, pos + 1))
    else if pos < |s| && IsHexDigit(s[pos]) then ReadHex(s, pos + 1, at, hex + [s[pos]])
    else Err(ErrorAt(at, MalformedEscape))
  }

  /** An escape whose backslash is just before `pos`. */
  function ReadEscape(s: string, pos: nat): (r: Read<char>)
    requires 0 < pos <= |s|
    ensures InBounds(s, pos, r)
  {
    if pos == |s| then Err(ErrorAt(pos - 1, UnknownEscape))
    else if s[pos] == '"' || s[pos] == '\\' then Ok((s[pos], pos + 1))
    else if s[pos] == 'n' then Ok(('\n', pos + 1))
    else if s[pos] == 'r' then Ok(('\r', pos + 1))
    else if s[pos] == 't' then Ok(('\t', pos + 1))
    else if s[pos] != 'u' then Err(ErrorAt(pos - 1, UnknownEscape))
    else if !Next(s, pos + 1, "{") then Err(ErrorAt(pos + 1, ExpectedBrace))
    else
      var hex :- ReadHex(s, pos + 2, pos - 1, "");
      match CharOf(hex.0)
      case None => Err(ErrorAt(pos - 1, NoCharacter(hex.0)))
      case Some(c) => Ok((c, hex.1))
  }

  /** The rest of a quoted string that opened at `start` and has read `value` so far. */
  function ReadQuoted(s: string, pos: nat, start: nat, value: string): (r: Read<string>)
    requires start < pos <= |s|
    ensures InBounds(s, pos, r)
    decreases |s| - pos
  {
    if pos == |s| then Err(ErrorAt(start, UnclosedQuote))
    else if s[pos] == '"' then Ok((value, pos + 1))
    else if s[pos] == '\\' then
      var c :- ReadEscape(s, pos + 1);
      ReadQuoted(s, c.1, start, value + [c.0])
    else ReadQuoted(s, pos + 1, start, value + [s[pos]])
  }

  /** A quoted value whose opening quote is at `pos`. */
  function ReadQuotedValue(s: string, pos: nat): (r: Read<string>)
    requires pos < |s|
    ensures InBounds(s, pos, r)
  {
    var quoted :- ReadQuoted(s, pos + 1, pos, "");
    var close := SpaceEnd(s, quoted.1);
    if Next(s, close, "]") then Ok((quoted.0, close + 1)) else Err(ErrorAt(close, ExpectedClose))
  }

  function ReadBareValue(s: string, pos: nat, key: string): (r: Read<string>)
    requires pos <= |s|
    ensures InBounds(s, pos, r)
  {
    var close := CloseAt(s, pos);
    if close == |s| then Err(ErrorAt(pos, UnclosedBracket))
    else
      var value := Trim(s[pos..close]);
      if value == "" then Err(ErrorAt(pos, ExpectedValue(key))) else Ok((value, close + 1))
  }

  function ReadValue(s: string, pos: nat, key: string): (r: Read<string>)
    requires pos <= |s|
    ensures InBounds(s, pos, r)
  {
    if pos < |s| && s[pos] == '"' then ReadQuotedValue(s, pos) else ReadBareValue(s, pos, key)
  }

  /** `~=` or `=`. */
  function ReadOp(s: string, pos: nat): (r: Option<(Op, nat)>)
    ensures r.Some? ==> pos < r.value.1 <= |s|
  {
    if pos + 1 < |s| && s[pos] == '~' && s[pos + 1] == '=' then Some((Contains, pos + 2))
    else if pos < |s| && s[pos] == '=' then Some((Equals, pos + 1))
    else None
  }

  function AttrOf(key: string, op: Op, at: nat, value: Read<string>): Read<Attr> {
    var v :- value;
    Ok((Attr(key, op, v.0, at), v.1))
  }

  /** An attribute whose `[` is just before `pos`. */
  function ReadAttr(s: string, pos: nat): (r: Read<Attr>)
    requires pos <= |s|
    ensures InBounds(s, pos, r)
  {
    var at := SpaceEnd(s, pos);
    var keyEnd := IdentEnd(s, at);
    if keyEnd == at then Err(ErrorAt(keyEnd, ExpectedKey))
    else
      var key := s[at..keyEnd];
      match ReadOp(s, SpaceEnd(s, keyEnd))
      case None => Err(ErrorAt(SpaceEnd(s, keyEnd), ExpectedOp(key)))
      case Some(op) => AttrOf(key, op.0, at, ReadValue(s, SpaceEnd(s, op.1), key))
  }

  predicate AttrsInBounds(s: string, attrs: seq<Attr>) {
    forall a <- attrs :: a.at <= |s|
  }

  function ReadAttrs(s: string, pos: nat, attrs: seq<Attr>): (r: Read<seq<Attr>>)
    requires pos <= |s|
    ensures InBounds(s, pos, r)
    decreases |s| - pos, 0
  {
    var p := SpaceEnd(s, pos);
    if p < |s| && s[p] == '[' then ReadAttrsAfter(s, p + 1, attrs) else Ok((attrs, p))
  }

  /** One more attribute, its `[` just before `pos`, and those that follow. */
  function ReadAttrsAfter(s: string, pos: nat, attrs: seq<Attr>): (r: Read<seq<Attr>>)
    requires pos <= |s|
    ensures InBounds(s, pos, r)
    decreases |s| - pos, 1
  {
    var attr :- ReadAttr(s, pos);
    ReadAttrs(s, attr.1, attrs + [attr.0])
  }

  predicate StepInBounds(s: string, step: Step) {
    AttrsInBounds(s, step.attrs) && (step.head.Some? ==> step.head.value.1 <= |s|)
  }

  /** The head, where it ends, and whether it is `*`. */
  function ReadHead(s: string, pos: nat): (r: (Option<(string, nat)>, nat, bool))
    requires pos <= |s|
    ensures pos <= r.1 <= |s| && (r.0.Some? ==> r.0.value.1 == pos)
  {
    if pos < |s| && s[pos] == '*' then (None, pos + 1, true)
    else if IdentEnd(s, pos) == pos then (None, pos, false)
    else (Some((s[pos..IdentEnd(s, pos)], pos)), IdentEnd(s, pos), false)
  }

  function StepOf(head: Option<(string, nat)>, star: bool, attrs: Read<seq<Attr>>): Read<Step> {
    var a :- attrs;
    if head.None? && !star && a.0 == [] then Err(ErrorAt(a.1, ExpectedHead)) else Ok((Step(head, a.0), a.1))
  }

  function ReadStep(s: string, pos: nat): (r: Read<Step>)
    requires pos <= |s|
    ensures InBounds(s, pos, r)
  {
    var head := ReadHead(s, pos);
    StepOf(head.0, head.2, ReadAttrs(s, head.1, []))
  }

  /** The steps of a selector from `pos` on, after those read so far. */
  function ReadSteps(s: string, pos: nat, steps: seq<Step>): (r: Read<seq<Step>>)
    requires pos <= |s|
    ensures InBounds(s, pos, r) && (r.Ok? ==> r.value.1 == |s|)
    decreases |s| - pos
  {
    var step :- ReadStep(s, SpaceEnd(s, pos));
    var p := SpaceEnd(s, step.1);
    if p == |s| then Ok((steps + [step.0], p))
    else if Next(s, p, ">>") then ReadSteps(s, p + 2, steps + [step.0])
    else Err(ErrorAt(p, ExpectedJoin))
  }

  // ---------------------------------------------------------------------------------
  // Writing.

  function OpText(op: Op): string { if op.Equals? then "=" else "~=" }

  function EscapeChar(c: char): string {
    if c == '"' then "\\\""
    else if c == '\\' then "\\\\"
    else if c == '\n' then "\\n"
    else if c == '\r' then "\\r"
    else if c == '\t' then "\\t"
    else if IsControl(c) then "\\u{" + Numeral(c as nat, 16) + "}"
    else [c]
  }

  function EscapeAll(s: string): string
    decreases |s|, 0
  {
    if s == "" then "" else EscapeOnto(s[0], s[1..])
  }

  function EscapeOnto(c: char, rest: string): string
    decreases |rest|, 1
  {
    EscapeChar(c) + EscapeAll(rest)
  }

  /** A text that reads back as `value`: itself if it is plain, and its escapes in quotes otherwise. */
  function WriteValue(value: string): string {
    if IsBare(value) then value else "\"" + EscapeAll(value) + "\""
  }

  /** What a value that is written as it is may hold. */
  predicate IsPlain(s: string) { s != "" && forall c <- s :: IsBareChar(c) || c == ',' }

  /** One attribute and how it is written: its key starts `lead` characters behind the bracket. */
  datatype Item = Item(key: string, op: Op, value: string, text: string, lead: nat)

  function Bracketed(key: string, op: Op, value: string, valueText: string): Item {
    Item(key, op, value, "[" + key + OpText(op) + valueText + "]", 0)
  }

  function WriteItems(items: seq<Item>): string {
    if items == [] then "" else items[0].text + WriteItems(items[1..])
  }

  function AttrAt(item: Item, pos: nat): Attr { Attr(item.key, item.op, item.value, pos + 1 + item.lead) }

  /** What reading the written items at `pos` adds to `attrs`. */
  function ItemAttrs(attrs: seq<Attr>, items: seq<Item>, pos: nat): (r: seq<Attr>)
    ensures |r| == |attrs| + |items|
    decreases |items|
  {
    if items == [] then attrs else ItemAttrs(attrs + [AttrAt(items[0], pos)], items[1..], pos + |items[0].text|)
  }

  // ---------------------------------------------------------------------------------
  // Reading what was written.

  lemma NextSplits(s: string, pos: nat, a: string, b: string)
    ensures Next(s, pos, a + b) <==> Next(s, pos, a) && Next(s, pos + |a|, b)
  {
    if Next(s, pos, a + b) {
      forall i | 0 <= i < |b| ensures s[pos + |a| + i] == b[i] {
        assert (a + b)[|a| + i] == b[i];
      }
      forall i | 0 <= i < |a| ensures s[pos + i] == a[i] {
        assert (a + b)[i] == a[i];
      }
    }
  }

  lemma NextFits(s: string, pos: nat, text: string)
    requires Next(s, pos, text)
    ensures s[pos..pos + |text|] == text
  {
  }

  lemma NextChar(s: string, pos: nat, c: char)
    ensures Next(s, pos, [c]) <==> pos < |s| && s[pos] == c
  {
    if Next(s, pos, [c]) { assert [c][0] == c; }
  }

  predicate GivesText(r: Read<string>, value: string, end: nat) { r.Ok? && r.value.0 == value && r.value.1 == end }

  predicate GivesChar(r: Read<char>, c: char, end: nat) { r.Ok? && r.value.0 == c && r.value.1 == end }

  predicate GivesAttr(r: Read<Attr>, attr: Attr, end: nat) { r.Ok? && r.value.0 == attr && r.value.1 == end }

  predicate GivesAttrs(r: Read<seq<Attr>>, attrs: seq<Attr>, end: nat)
  {
    r.Ok? && r.value.0 == attrs && r.value.1 == end
  }

  predicate GivesStep(r: Read<Step>, step: Step, end: nat) { r.Ok? && r.value.0 == step && r.value.1 == end }

  lemma {:induction false} HexReads(s: string, pos: nat, at: nat, read: string, hex: string)
    requires at < pos && IsNumeral(read, 16) && IsNumeral(hex, 16) && Next(s, pos, hex + "}")
    ensures GivesText(ReadHex(s, pos, at, read), read + hex, pos + |hex| + 1)
    decreases |hex|
  {
    if hex == "" {
      NextChar(s, pos, '}');
      assert hex + "}" == "}" && read + hex == read;
    } else {
      assert hex + "}" == [hex[0]] + (hex[1..] + "}");
      assert hex[0] in hex && forall c <- hex[1..] :: c in hex;
      NextSplits(s, pos, [hex[0]], hex[1..] + "}");
      NextChar(s, pos, hex[0]);
      HexReads(s, pos + 1, at, read + [hex[0]], hex[1..]);
      assert read + [hex[0]] + hex[1..] == read + hex;
    }
  }

  lemma HexEscapeReads(s: string, pos: nat, hex: string)
    requires Next(s, pos, "\\u{" + hex + "}") && IsNumeral(hex, 16)
    ensures s[pos] == '\\' && s[pos + 1] == 'u' && Next(s, pos + 2, "{")
    ensures GivesText(ReadHex(s, pos + 3, pos, ""), hex, pos + |hex| + 4)
  {
    assert "\\u{" + hex + "}" == "\\u" + ("{" + (hex + "}"));
    NextSplits(s, pos, "\\u", "{" + (hex + "}"));
    NextSplits(s, pos + 2, "{", hex + "}");
    HexReads(s, pos + 3, pos, "", hex);
    assert "\\u"[0] == '\\' && "\\u"[1] == 'u';
    assert "" + hex == hex;
  }

  lemma ControlEscapeReads(s: string, pos: nat, c: char)
    requires Next(s, pos, "\\u{" + Numeral(c as nat, 16) + "}")
    ensures s[pos] == '\\' && GivesChar(ReadEscape(s, pos + 1), c, pos + |Numeral(c as nat, 16)| + 4)
  {
    NumeralReads(c as nat, 16);
    HexEscapeReads(s, pos, Numeral(c as nat, 16));
  }

  lemma LetterEscapeReads(s: string, pos: nat, c: char)
    requires c in "\"\\\n\r\t" && Next(s, pos, EscapeChar(c))
    ensures |EscapeChar(c)| == 2 && s[pos] == '\\' && GivesChar(ReadEscape(s, pos + 1), c, pos + 2)
  {
    var text := EscapeChar(c);
    assert text == [text[0]] + [text[1]];
    NextSplits(s, pos, [text[0]], [text[1]]);
    NextChar(s, pos, text[0]);
    NextChar(s, pos + 1, text[1]);
  }

  lemma EscapedCharReads(s: string, pos: nat, start: nat, value: string, c: char)
    requires start < pos && Next(s, pos, EscapeChar(c))
    ensures pos + |EscapeChar(c)| <= |s|
    ensures ReadQuoted(s, pos, start, value) == ReadQuoted(s, pos + |EscapeChar(c)|, start, value + [c])
  {
    if c in "\"\\\n\r\t" {
      LetterEscapeReads(s, pos, c);
    } else if IsControl(c) {
      ControlEscapeReads(s, pos, c);
    } else {
      NextChar(s, pos, c);
    }
  }

  lemma MoveFirst(read: string, value: string)
    requires value != ""
    ensures read + [value[0]] + value[1..] == read + value
  {
  }

  lemma {:induction false} EscapedReads(s: string, pos: nat, start: nat, read: string, value: string, r: Read<string>)
    requires start < pos && Next(s, pos, EscapeAll(value) + "\"") && r == ReadQuoted(s, pos, start, read)
    ensures GivesText(r, read + value, pos + |EscapeAll(value)| + 1)
    decreases |value|
  {
    if value == "" {
      assert EscapeAll(value) + "\"" == "\"" && read + value == read;
      NextChar(s, pos, '"');
    } else {
      var first, rest := EscapeChar(value[0]), EscapeAll(value[1..]) + "\"";
      assert EscapeAll(value) == EscapeOnto(value[0], value[1..]) == first + EscapeAll(value[1..]);
      Associates(first, EscapeAll(value[1..]), "\"");
      MoveFirst(read, value);
      NextSplits(s, pos, first, rest);
      EscapedCharReads(s, pos, start, read, value[0]);
      EscapedReads(s, pos + |first|, start, read + [value[0]], value[1..], r);
    }
  }

  lemma {:induction false} IdentEnds(s: string, pos: nat, ident: string)
    requires Next(s, pos, ident) && IsIdent(ident)
    requires pos + |ident| < |s| ==> !IsIdentChar(s[pos + |ident|])
    ensures IdentEnd(s, pos) == pos + |ident| && s[pos..pos + |ident|] == ident
    decreases |ident|
  {
    NextFits(s, pos, ident);
    if ident != "" {
      assert s[pos] == ident[0] && ident[0] in ident;
      IdentEnds(s, pos + 1, ident[1..]);
    }
  }

  lemma {:induction false} PlainCloses(s: string, pos: nat, text: string)
    requires Next(s, pos, text + "]") && ']' !in text
    ensures CloseAt(s, pos) == pos + |text| < |s| && s[pos..pos + |text|] == text
    ensures text != "" ==> s[pos] == text[0]
    decreases |text|
  {
    NextSplits(s, pos, text, "]");
    NextChar(s, pos + |text|, ']');
    NextFits(s, pos, text);
    if text != "" {
      assert s[pos] == text[0];
      assert text + "]" == [text[0]] + (text[1..] + "]");
      NextSplits(s, pos, [text[0]], text[1..] + "]");
      PlainCloses(s, pos + 1, text[1..]);
    }
  }

  lemma TrimKeeps(value: string)
    requires value != "" && !IsSpace(value[0]) && !IsSpace(value[|value| - 1])
    ensures Trim(value) == value
  {
  }

  lemma PlainIsNoSpace(value: string)
    requires IsPlain(value)
    ensures !IsSpace(value[0]) && !IsSpace(value[|value| - 1]) && value[0] != '"' && ']' !in value
  {
    assert value[0] in value && value[|value| - 1] in value;
  }

  lemma BareValueEnds(s: string, pos: nat, key: string, value: string, close: nat)
    requires pos <= close < |s| && CloseAt(s, pos) == close
    requires Trim(s[pos..close]) == value && value != ""
    ensures GivesText(ReadBareValue(s, pos, key), value, close + 1)
  {
  }

  lemma PlainValueReads(s: string, pos: nat, key: string, value: string)
    requires IsPlain(value) && Next(s, pos, value + "]")
    ensures pos < |s| && s[pos] == value[0] && GivesText(ReadBareValue(s, pos, key), value, pos + |value| + 1)
  {
    PlainIsNoSpace(value);
    PlainCloses(s, pos, value);
    TrimKeeps(value);
    BareValueEnds(s, pos, key, value, pos + |value|);
  }

  lemma QuotedValueEnds(s: string, pos: nat, value: string, end: nat)
    requires pos + 1 < end < |s| && GivesText(ReadQuoted(s, pos + 1, pos, ""), value, end)
    requires s[end] == ']'
    ensures GivesText(ReadQuotedValue(s, pos), value, end + 1)
  {
    NextChar(s, end, ']');
  }

  lemma QuotedValueReads(s: string, pos: nat, value: string)
    requires Next(s, pos, "\"" + (EscapeAll(value) + "\"" + "]"))
    ensures pos < |s| && s[pos] == '"' && GivesText(ReadQuotedValue(s, pos), value, pos + |EscapeAll(value)| + 3)
  {
    var inner := EscapeAll(value) + "\"";
    NextSplits(s, pos, "\"", inner + "]");
    NextChar(s, pos, '"');
    NextSplits(s, pos + 1, inner, "]");
    EscapedReads(s, pos + 1, pos, "", value, ReadQuoted(s, pos + 1, pos, ""));
    assert "" + value == value;
    NextChar(s, pos + 1 + |inner|, ']');
    QuotedValueEnds(s, pos, value, pos + 1 + |inner|);
  }

  ghost predicate RendersAt(s: string, pos: nat, key: string, text: string, value: string) {
    pos <= |s| && Next(s, pos, text + "]") ==>
      SpaceEnd(s, pos) == pos && GivesText(ReadValue(s, pos, key), value, pos + |text| + 1)
  }

  /** Wherever `text` stands for a value, `value` is read. */
  ghost predicate Renders(text: string, value: string) {
    forall s: string, pos: nat, key: string :: RendersAt(s, pos, key, text, value)
  }

  lemma PlainRenders(value: string)
    requires IsPlain(value)
    ensures Renders(value, value)
  {
    PlainIsNoSpace(value);
    forall s: string, pos: nat, key: string
      ensures RendersAt(s, pos, key, value, value)
    {
      if pos <= |s| && Next(s, pos, value + "]") {
        PlainValueReads(s, pos, key, value);
      }
    }
  }

  lemma QuotedRenders(value: string)
    ensures Renders("\"" + EscapeAll(value) + "\"", value)
  {
    var text := "\"" + EscapeAll(value) + "\"";
    forall s: string, pos: nat, key: string
      ensures RendersAt(s, pos, key, text, value)
    {
      if pos <= |s| && Next(s, pos, text + "]") {
        assert text + "]" == "\"" + (EscapeAll(value) + "\"" + "]");
        QuotedValueReads(s, pos, value);
      }
    }
  }

  /** Whatever the characters of a value, what is written for it reads back as it. */
  lemma WriteValueRenders(value: string)
    ensures Renders(WriteValue(value), value)
  {
    if IsBare(value) {
      PlainRenders(value);
    } else {
      QuotedRenders(value);
    }
  }

  lemma OpReads(s: string, pos: nat, op: Op)
    requires Next(s, pos, OpText(op))
    ensures ReadOp(s, pos) == Some((op, pos + |OpText(op)|))
    ensures !IsSpace(s[pos]) && !IsIdentChar(s[pos])
  {
    if op.Equals? {
      NextChar(s, pos, '=');
    } else {
      assert "~=" == "~" + "=";
      NextSplits(s, pos, "~", "=");
      NextChar(s, pos, '~');
      NextChar(s, pos + 1, '=');
    }
  }

  lemma AttrAssembles(s: string, pos: nat, keyEnd: nat, op: Op, opEnd: nat, value: string, end: nat)
    requires pos < keyEnd < opEnd <= |s| && SpaceEnd(s, pos) == pos && IdentEnd(s, pos) == keyEnd
    requires SpaceEnd(s, keyEnd) == keyEnd && ReadOp(s, keyEnd) == Some((op, opEnd)) && SpaceEnd(s, opEnd) == opEnd
    requires GivesText(ReadValue(s, opEnd, s[pos..keyEnd]), value, end)
    ensures GivesAttr(ReadAttr(s, pos), Attr(s[pos..keyEnd], op, value, pos), end)
  {
  }

  lemma ItemSplits(s: string, pos: nat, key: string, op: string, value: string)
    requires Next(s, pos, "[" + (key + (op + value)))
    ensures pos < |s| && s[pos] == '[' && Next(s, pos, "[") && Next(s, pos + 1, key)
    ensures Next(s, pos + 1 + |key|, op) && Next(s, pos + 1 + |key| + |op|, value)
  {
    NextSplits(s, pos, "[", key + (op + value));
    NextChar(s, pos, '[');
    NextSplits(s, pos + 1, key, op + value);
    NextSplits(s, pos + 1 + |key|, op, value);
  }

  lemma KeyReads(s: string, pos: nat, key: string, op: Op)
    requires key != "" && IsIdent(key) && Next(s, pos, key) && Next(s, pos + |key|, OpText(op))
    ensures SpaceEnd(s, pos) == pos && IdentEnd(s, pos) == pos + |key| < |s| && s[pos..pos + |key|] == key
    ensures SpaceEnd(s, pos + |key|) == pos + |key|
    ensures ReadOp(s, pos + |key|) == Some((op, pos + |key| + |OpText(op)|))
  {
    OpReads(s, pos + |key|, op);
    assert s[pos] == key[0] && key[0] in key;
    IdentEnds(s, pos, key);
  }

  lemma RenderedReads(s: string, pos: nat, key: string, text: string, value: string)
    requires Renders(text, value) && pos <= |s| && Next(s, pos, text + "]")
    ensures SpaceEnd(s, pos) == pos && GivesText(ReadValue(s, pos, key), value, pos + |text| + 1)
  {
    assert RendersAt(s, pos, key, text, value);
  }

  /** One attribute written in its parts is read. */
  lemma PartsRead(s: string, pos: nat, key: string, op: Op, text: string, value: string)
    requires key != "" && IsIdent(key) && Renders(text, value)
    requires Next(s, pos, key) && Next(s, pos + |key|, OpText(op)) && Next(s, pos + |key| + |OpText(op)|, text + "]")
    ensures pos < |s| && pos + |key| + |OpText(op)| + |text| + 1 <= |s|
    ensures GivesAttr(ReadAttr(s, pos), Attr(key, op, value, pos), pos + |key| + |OpText(op)| + |text| + 1)
  {
    var keyEnd, valueAt := pos + |key|, pos + |key| + |OpText(op)|;
    KeyReads(s, pos, key, op);
    RenderedReads(s, valueAt, s[pos..keyEnd], text, value);
    AttrAssembles(s, pos, keyEnd, op, valueAt, value, valueAt + |text| + 1);
  }

  ghost predicate ReadsAt(s: string, pos: nat, item: Item) {
    Next(s, pos, item.text) ==>
      && pos < |s| && s[pos] == '[' && pos + |item.text| <= |s|
      && GivesAttr(ReadAttr(s, pos + 1), AttrAt(item, pos), pos + |item.text|)
  }

  /** Wherever the text of `item` stands, the attribute is read. */
  ghost predicate Writable(item: Item) {
    forall s: string, pos: nat :: ReadsAt(s, pos, item)
  }

  ghost predicate AllWritable(items: seq<Item>) {
    items == [] || (Writable(items[0]) && AllWritable(items[1..]))
  }

  lemma BracketedIsWritable(key: string, op: Op, value: string, valueText: string)
    requires key != "" && IsIdent(key) && Renders(valueText, value)
    ensures Writable(Bracketed(key, op, value, valueText))
  {
    var item := Bracketed(key, op, value, valueText);
    forall s: string, pos: nat ensures ReadsAt(s, pos, item) {
      if Next(s, pos, item.text) {
        assert item.text == "[" + (key + (OpText(op) + (valueText + "]")));
        ItemSplits(s, pos, key, OpText(op), valueText + "]");
        PartsRead(s, pos + 1, key, op, valueText, value);
      }
    }
  }

  lemma AttrsStep(s: string, pos: nat, attrs: seq<Attr>, attr: Attr, next: nat)
    requires pos < |s| && s[pos] == '[' && next <= |s| && GivesAttr(ReadAttr(s, pos + 1), attr, next)
    ensures ReadAttrs(s, pos, attrs) == ReadAttrs(s, next, attrs + [attr])
  {
    assert ReadAttrs(s, pos, attrs) == ReadAttrsAfter(s, pos + 1, attrs);
  }

  lemma FirstItemReads(s: string, pos: nat, items: seq<Item>, attrs: seq<Attr>) returns (next: nat)
    requires items != [] && Writable(items[0]) && Next(s, pos, WriteItems(items))
    ensures next == pos + |items[0].text|
    ensures pos < next <= |s| && s[pos] == '[' && Next(s, next, WriteItems(items[1..]))
    ensures ReadAttrs(s, pos, attrs) == ReadAttrs(s, next, attrs + [AttrAt(items[0], pos)])
  {
    next := pos + |items[0].text|;
    NextSplits(s, pos, items[0].text, WriteItems(items[1..]));
    assert ReadsAt(s, pos, items[0]);
    AttrsStep(s, pos, attrs, AttrAt(items[0], pos), next);
  }

  lemma ItemAttrsStep(attrs: seq<Attr>, items: seq<Item>, pos: nat)
    requires items != []
    ensures ItemAttrs(attrs, items, pos)
            == ItemAttrs(attrs + [AttrAt(items[0], pos)], items[1..], pos + |items[0].text|)
    ensures WriteItems(items) == items[0].text + WriteItems(items[1..])
  {
  }

  lemma {:induction false} ItemsRead(s: string, pos: nat, items: seq<Item>, attrs: seq<Attr>, end: nat,
                                     r: Read<seq<Attr>>, read: seq<Attr>)
    requires AllWritable(items) && Next(s, pos, WriteItems(items))
    requires end == pos + |WriteItems(items)| && end <= |s| && (var e := SpaceEnd(s, end); e < |s| ==> s[e] != '[')
    requires r == ReadAttrs(s, pos, attrs) && read == ItemAttrs(attrs, items, pos)
    ensures GivesAttrs(r, read, SpaceEnd(s, end))
    decreases |items|
  {
    if items != [] {
      var next := FirstItemReads(s, pos, items, attrs);
      ItemAttrsStep(attrs, items, pos);
      ItemsRead(s, next, items[1..], attrs + [AttrAt(items[0], pos)], end, r, read);
    }
  }

  function HeadOf(head: string, pos: nat): Option<(string, nat)> {
    if head == "*" || head == "" then None else Some((head, pos))
  }

  /** The text of a step: its head, `*` for none, and its attributes. */
  datatype Written = Written(head: string, items: seq<Item>) {
    function Text(): string { head + WriteItems(items) }

    ghost predicate Ok() {
      && (head == "*" || IsIdent(head)) && (head == "" ==> items != [])
      && AllWritable(items)
    }

    function Read(pos: nat): Step {
      Step(HeadOf(head, pos), ItemAttrs([], items, pos + |head|))
    }
  }

  lemma WrittenIsOk(head: string, items: seq<Item>)
    requires (head == "*" || IsIdent(head)) && (head == "" ==> items != []) && AllWritable(items)
    ensures Written(head, items).Ok()
  {
  }

  /** Nothing that belongs to a step follows at `end`. */
  predicate StepStops(s: string, end: nat) {
    end <= |s| && (end < |s| ==> IsSpace(s[end])) && var e := SpaceEnd(s, end); e < |s| ==> s[e] != '['
  }

  /** The head of a step ends where its attributes begin. */
  lemma HeadReads(s: string, pos: nat, head: string)
    requires (head == "*" || IsIdent(head)) && Next(s, pos, head)
    requires pos + |head| < |s| ==> !IsIdentChar(s[pos + |head|]) && s[pos + |head|] != '*'
    ensures pos + |head| <= |s|
    ensures ReadHead(s, pos) == (HeadOf(head, pos), pos + |head|, head == "*")
  {
    NextFits(s, pos, head);
    if head != "" { assert s[pos] == head[0] && head[0] in head; }
    if head != "*" { IdentEnds(s, pos, head); }
  }

  lemma ItemsStart(s: string, pos: nat, items: seq<Item>)
    requires items != [] && Writable(items[0]) && Next(s, pos, WriteItems(items))
    ensures pos < |s| && s[pos] == '['
  {
    var next := FirstItemReads(s, pos, items, []);
  }

  lemma StepAssembles(s: string, pos: nat, head: Option<(string, nat)>, star: bool, headEnd: nat, read: seq<Attr>,
                      end: nat, r: Read<Step>)
    requires pos <= headEnd <= |s| && ReadHead(s, pos) == (head, headEnd, star)
    requires GivesAttrs(ReadAttrs(s, headEnd, []), read, end) && (head.Some? || star || read != [])
    requires r == ReadStep(s, pos)
    ensures GivesStep(r, Step(head, read), end)
  {
  }

  lemma HeadAndItems(s: string, pos: nat, step: Written)
    requires step.Ok() && Next(s, pos, step.Text())
    requires var end := pos + |step.Text()|; end < |s| ==> IsSpace(s[end])
    ensures pos < |s| && SpaceEnd(s, pos) == pos
    ensures Next(s, pos, step.head) && Next(s, pos + |step.head|, WriteItems(step.items))
    ensures var end := pos + |step.head|; end < |s| ==> !IsIdentChar(s[end]) && s[end] != '*'
  {
    NextSplits(s, pos, step.head, WriteItems(step.items));
    if step.items != [] {
      ItemsStart(s, pos + |step.head|, step.items);
    }
    if step.head != "" { assert s[pos] == step.head[0] && step.head[0] in step.head; }
  }

  lemma StepHeadReads(s: string, pos: nat, step: Written, headEnd: nat)
    requires step.Ok() && Next(s, pos, step.Text()) && StepStops(s, pos + |step.Text()|) && headEnd == pos + |step.head|
    ensures headEnd <= |s| && SpaceEnd(s, pos) == pos && Next(s, headEnd, WriteItems(step.items))
    ensures ReadHead(s, pos) == (HeadOf(step.head, pos), headEnd, step.head == "*")
  {
    HeadAndItems(s, pos, step);
    HeadReads(s, pos, step.head);
  }

  lemma StepItemsRead(s: string, pos: nat, step: Written, headEnd: nat, end: nat, read: seq<Attr>)
    requires step.Ok() && Next(s, pos, step.Text()) && end == pos + |step.Text()| && StepStops(s, end)
    requires headEnd == pos + |step.head| && read == ItemAttrs([], step.items, headEnd)
    ensures headEnd <= |s| && GivesAttrs(ReadAttrs(s, headEnd, []), read, SpaceEnd(s, end))
    ensures HeadOf(step.head, pos).Some? || step.head == "*" || read != []
  {
    StepHeadReads(s, pos, step, headEnd);
    ItemsRead(s, headEnd, step.items, [], end, ReadAttrs(s, headEnd, []), read);
  }

  lemma StepReads(s: string, pos: nat, step: Written, end: nat, r: Read<Step>)
    requires step.Ok() && Next(s, pos, step.Text()) && end == pos + |step.Text()| && StepStops(s, end)
    requires r == ReadStep(s, pos)
    ensures SpaceEnd(s, pos) == pos && GivesStep(r, step.Read(pos), SpaceEnd(s, end))
  {
    var headEnd := pos + |step.head|;
    var read := ItemAttrs([], step.items, headEnd);
    StepHeadReads(s, pos, step, headEnd);
    StepItemsRead(s, pos, step, headEnd, end, read);
    StepAssembles(s, pos, HeadOf(step.head, pos), step.head == "*", headEnd, read, SpaceEnd(s, end), r);
  }

  // ---------------------------------------------------------------------------------
  // The columns that later errors name.

  lemma ReadAttrInside(s: string, pos: nat)
    requires pos <= |s|
    ensures ReadAttr(s, pos).Ok? ==> ReadAttr(s, pos).value.0.at <= |s|
  {
  }

  lemma {:induction false} ReadAttrsInside(s: string, pos: nat, attrs: seq<Attr>, r: Read<seq<Attr>>)
    requires pos <= |s| && AttrsInBounds(s, attrs) && r == ReadAttrs(s, pos, attrs)
    ensures r.Ok? ==> AttrsInBounds(s, r.value.0)
    decreases |s| - pos
  {
    var p := SpaceEnd(s, pos);
    if p < |s| && s[p] == '[' {
      ReadAttrInside(s, p + 1);
      var attr := ReadAttr(s, p + 1);
      assert r == ReadAttrsAfter(s, p + 1, attrs);
      if attr.Ok? {
        ReadAttrsInside(s, attr.value.1, attrs + [attr.value.0], r);
      }
    }
  }

  lemma ReadStepInside(s: string, pos: nat)
    requires pos <= |s|
    ensures ReadStep(s, pos).Ok? ==> StepInBounds(s, ReadStep(s, pos).value.0)
  {
    var headEnd := ReadHead(s, pos).1;
    ReadAttrsInside(s, headEnd, [], ReadAttrs(s, headEnd, []));
  }

  predicate StepsInBounds(s: string, steps: seq<Step>) {
    forall k | 0 <= k < |steps| :: StepInBounds(s, steps[k])
  }

  lemma {:induction false} ReadStepsInside(s: string, pos: nat, steps: seq<Step>)
    requires pos <= |s| && StepsInBounds(s, steps)
    ensures ReadSteps(s, pos, steps).Ok? ==> StepsInBounds(s, ReadSteps(s, pos, steps).value.0)
    decreases |s| - pos
  {
    ReadStepInside(s, SpaceEnd(s, pos));
    var step := ReadStep(s, SpaceEnd(s, pos));
    if step.Ok? && Next(s, SpaceEnd(s, step.value.1), ">>") {
      NextSplits(s, SpaceEnd(s, step.value.1), ">>", "");
      ReadStepsInside(s, SpaceEnd(s, step.value.1) + 2, steps + [step.value.0]);
    }
  }
}

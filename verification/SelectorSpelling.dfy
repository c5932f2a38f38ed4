/**
 The ways a criterion may be spelled: spaces around its parts, a value in the open or in quotes, and the escapes of a
 quoted one. Each is read as the value it spells.
 */
module SelectorSpelling {
  import opened SelectorGrammar
  import opened SelectorText
  import opened Sequences
  import opened Wrappers

  // ---------------------------------------------------------------------------------
  // Digits.

  /** `value * 10^|digits|` and the digits behind it. */
  function Power(base: nat, n: nat): nat { if n == 0 then 1 else base * Power(base, n - 1) }

  lemma PowerNext(base: nat, n: nat)
    ensures Power(base, n + 1) == base * Power(base, n)
  {
  }

  lemma ShiftsBy(a: nat, p: nat, b: nat, base: nat, d: nat)
    ensures (a * p + b) * base + d == a * (base * p) + (b * base + d)
  {
    assert a * p * base == a * (base * p);
  }

  /** A numeral is worth its front, shifted by the digits that follow, and what those are worth. */
  lemma {:induction false} PlaceValue(front: string, digits: string, base: nat)
    requires IsNumeral(front, base) && IsNumeral(digits, base)
    ensures IsNumeral(front + digits, base)
    ensures NumeralValue(front + digits, base)
         == NumeralValue(front, base) * Power(base, |digits|) + NumeralValue(digits, base)
  {
    if digits == "" {
      assert front + digits == front;
    } else {
      var n := |digits| - 1;
      PlaceValue(front, digits[..n], base);
      assert (front + digits)[..|front| + n] == front + digits[..n];
      PowerNext(base, n);
      ShiftsBy(NumeralValue(front, base), Power(base, n), NumeralValue(digits[..n], base), base,
               DigitValue(digits[n]));
    }
  }

  lemma DigitsAre()
    ensures DigitValue('0') == 0 && DigitValue('1') == 1 && DigitValue('2') == 2 && DigitValue('3') == 3
    ensures DigitValue('4') == 4 && DigitValue('5') == 5 && DigitValue('6') == 6 && DigitValue('7') == 7
    ensures DigitValue('8') == 8 && DigitValue('9') == 9
    ensures DigitValue('a') == DigitValue('A') == 10 && DigitValue('b') == DigitValue('B') == 11
    ensures DigitValue('c') == DigitValue('C') == 12 && DigitValue('d') == DigitValue('D') == 13
    ensures DigitValue('e') == DigitValue('E') == 14 && DigitValue('f') == DigitValue('F') == 15
  {
  }

  // ---------------------------------------------------------------------------------
  // Space.

  predicate AllSpace(s: string) { forall c <- s :: IsSpace(c) }

  lemma {:induction false} SpaceRuns(s: string, pos: nat, gap: string)
    requires AllSpace(gap) && Next(s, pos, gap) && (pos + |gap| < |s| ==> !IsSpace(s[pos + |gap|]))
    ensures SpaceEnd(s, pos) == pos + |gap|
    decreases |gap|
  {
    if gap != "" {
      assert s[pos] == gap[0] && gap[0] in gap;
      assert gap == [gap[0]] + gap[1..];
      NextSplits(s, pos, [gap[0]], gap[1..]);
      SpaceRuns(s, pos + 1, gap[1..]);
    }
  }

  lemma {:induction false} TrimDropsTrail(text: string, trail: string)
    requires text != "" && !IsSpace(text[0]) && !IsSpace(text[|text| - 1]) && AllSpace(trail)
    ensures Trim(text + trail) == text
    decreases |trail|
  {
    if trail == "" {
      assert text + trail == text;
    } else {
      var s, n := text + trail, |trail| - 1;
      TrimDropsTrail(text, trail[..n]);
      assert s[..|s| - 1] == text + trail[..n];
      assert s[|s| - 1] == trail[n] && trail[n] in trail && s[0] == text[0];
      assert TrimStart(s) == s && TrimStart(text + trail[..n]) == text + trail[..n];
    }
  }

  /** Trimming takes spaces off both ends and nothing else, up to characters that are none. */
  ghost predicate Trimmed(s: string, lead: string, text: string, trail: string) {
    && s == lead + text + trail && AllSpace(lead) && AllSpace(trail)
    && (text != "" ==> !IsSpace(text[0]) && !IsSpace(text[|text| - 1]))
  }

  lemma {:induction false} TrimStartIs(s: string, t: string) returns (lead: string)
    requires t == TrimStart(s)
    ensures s == lead + t && AllSpace(lead) && (t != "" ==> !IsSpace(t[0]))
    decreases |s|
  {
    if s != "" && IsSpace(s[0]) {
      var more := TrimStartIs(s[1..], t);
      lead := [s[0]] + more;
    } else {
      lead := "";
    }
  }

  lemma {:induction false} TrimEndIs(s: string, t: string) returns (trail: string)
    requires t == TrimEnd(s)
    ensures s == t + trail && AllSpace(trail) && (t != "" ==> !IsSpace(t[|t| - 1]))
    decreases |s|
  {
    if s != "" && IsSpace(s[|s| - 1]) {
      var more := TrimEndIs(s[..|s| - 1], t);
      trail := more + [s[|s| - 1]];
      Associates(t, more, [s[|s| - 1]]);
    } else {
      trail := "";
    }
  }

  lemma TrimIs(s: string)
    ensures exists lead, trail :: Trimmed(s, lead, Trim(s), trail)
  {
    var front, text := TrimStart(s), Trim(s);
    var lead := TrimStartIs(s, front);
    var trail := TrimEndIs(front, text);
    Associates(lead, text, trail);
    assert text != "" ==> text[0] == front[0];
    assert Trimmed(s, lead, text, trail);
  }

  // ---------------------------------------------------------------------------------
  // Quoted text.

  /** One character of a quoted value: as it is, or escaped. */
  datatype Piece = Plain(c: char) | Short(letter: char) | Code(hex: string) {
    predicate Ok() {
      match this
      case Plain(c) => c != '"' && c != '\\'
      case Short(letter) => letter in "\"\\nrt"
      case Code(hex) => hex != "" && IsNumeral(hex, 16) && IsCodePoint(NumeralValue(hex, 16))
    }

    function Text(): string {
      match this
      case Plain(c) => [c]
      case Short(letter) => ['\\', letter]
      case Code(hex) => "\\u{" + hex + "}"
    }

    function Char(): char
      requires Ok()
    {
      match this
      case Plain(c) => c
      case Short(letter) =>
        if letter == 'n' then '\n' else if letter == 'r' then '\r' else if letter == 't' then '\t' else letter
      case Code(hex) => NumeralValue(hex, 16) as char
    }
  }

  predicate IsCodePoint(n: nat) { n < 0xD800 || 0xE000 <= n < 0x11_0000 }

  function PiecesText(pieces: seq<Piece>): string {
    if pieces == [] then "" else pieces[0].Text() + PiecesText(pieces[1..])
  }

  predicate PiecesOk(pieces: seq<Piece>) { forall p <- pieces :: p.Ok() }

  function PiecesValue(pieces: seq<Piece>): string
    requires PiecesOk(pieces)
  {
    if pieces == [] then "" else [pieces[0].Char()] + PiecesValue(pieces[1..])
  }

  lemma ShortReads(s: string, pos: nat, start: nat, value: string, p: Piece)
    requires start < pos && p.Short? && p.Ok() && Next(s, pos, p.Text())
    ensures pos + 2 <= |s| && ReadQuoted(s, pos, start, value) == ReadQuoted(s, pos + 2, start, value + [p.Char()])
  {
    assert p.Text() == ['\\'] + [p.letter];
    NextSplits(s, pos, ['\\'], [p.letter]);
    NextChar(s, pos, '\\');
    NextChar(s, pos + 1, p.letter);
  }

  lemma CodeReads(s: string, pos: nat, start: nat, value: string, p: Piece)
    requires start < pos && p.Code? && p.Ok() && Next(s, pos, p.Text())
    ensures pos + |p.Text()| <= |s|
    ensures ReadQuoted(s, pos, start, value) == ReadQuoted(s, pos + |p.Text()|, start, value + [p.Char()])
  {
    HexEscapeReads(s, pos, p.hex);
  }

  lemma PieceReads(s: string, pos: nat, start: nat, value: string, p: Piece)
    requires start < pos && p.Ok() && Next(s, pos, p.Text())
    ensures pos + |p.Text()| <= |s|
    ensures ReadQuoted(s, pos, start, value) == ReadQuoted(s, pos + |p.Text()|, start, value + [p.Char()])
  {
    match p
    case Plain(c) => NextChar(s, pos, c);
    case Short(_) => ShortReads(s, pos, start, value, p);
    case Code(_) => CodeReads(s, pos, start, value, p);
  }

  /** The first piece and what follows it. */
  lemma PiecesSplit(pieces: seq<Piece>, read: string, rest: seq<Piece>)
    requires pieces != [] && PiecesOk(pieces) && rest == pieces[1..]
    ensures PiecesOk(rest) && PiecesText(pieces) + "\"" == pieces[0].Text() + (PiecesText(rest) + "\"")
    ensures read + PiecesValue(pieces) == read + [pieces[0].Char()] + PiecesValue(rest)
    ensures |PiecesText(pieces)| == |pieces[0].Text()| + |PiecesText(rest)|
  {
    Associates(pieces[0].Text(), PiecesText(rest), "\"");
    Associates(read, [pieces[0].Char()], PiecesValue(rest));
  }

  lemma FirstPieceFits(s: string, pos: nat, pieces: seq<Piece>)
    requires pieces != [] && PiecesOk(pieces) && Next(s, pos, PiecesText(pieces) + "\"")
    ensures PiecesOk(pieces[1..]) && pieces[0].Ok() && Next(s, pos, pieces[0].Text())
    ensures Next(s, pos + |pieces[0].Text()|, PiecesText(pieces[1..]) + "\"")
  {
    PiecesSplit(pieces, "", pieces[1..]);
    NextSplits(s, pos, pieces[0].Text(), PiecesText(pieces[1..]) + "\"");
  }

  lemma PieceTaken(s: string, pos: nat, start: nat, read: string, p: Piece, r: Read<string>)
    returns (next: nat, more: string)
    requires start < pos && p.Ok() && Next(s, pos, p.Text()) && r == ReadQuoted(s, pos, start, read)
    ensures next == pos + |p.Text()| <= |s| && more == read + [p.Char()] && r == ReadQuoted(s, next, start, more)
  {
    PieceReads(s, pos, start, read, p);
    next, more := pos + |p.Text()|, read + [p.Char()];
  }

  lemma {:induction false} PiecesRead(s: string, pos: nat, start: nat, read: string, pieces: seq<Piece>,
                                      r: Read<string>)
    requires start < pos && PiecesOk(pieces) && Next(s, pos, PiecesText(pieces) + "\"")
    requires r == ReadQuoted(s, pos, start, read)
    ensures GivesText(r, read + PiecesValue(pieces), pos + |PiecesText(pieces)| + 1)
    decreases |pieces|
  {
    if pieces == [] {
      assert PiecesText(pieces) + "\"" == "\"" && read + PiecesValue(pieces) == read;
      NextChar(s, pos, '"');
    } else {
      FirstPieceFits(s, pos, pieces);
      PiecesSplit(pieces, read, pieces[1..]);
      var next, more := PieceTaken(s, pos, start, read, pieces[0], r);
      PiecesRead(s, next, start, more, pieces[1..], r);
    }
  }

  // ---------------------------------------------------------------------------------
  // Values.

  /** A value as it may be written: in the open, or between quotes. */
  datatype Spelled = Open(text: string) | Quoted(pieces: seq<Piece>) {
    predicate Ok() {
      match this
      case Open(text) =>
        && text != "" && !IsSpace(text[0]) && !IsSpace(text[|text| - 1]) && text[0] != '"' && ']' !in text
      case Quoted(pieces) => PiecesOk(pieces)
    }

    function Text(): string {
      match this
      case Open(text) => text
      case Quoted(pieces) => "\"" + PiecesText(pieces) + "\""
    }

    function Value(): string
      requires Ok()
    {
      match this
      case Open(text) => text
      case Quoted(pieces) => PiecesValue(pieces)
    }
  }

  lemma NoCloseInSpace(trail: string)
    requires AllSpace(trail)
    ensures ']' !in trail
  {
    assert !IsSpace(']');
  }

  lemma OpenRenders(text: string, trail: string)
    requires Open(text).Ok() && AllSpace(trail)
    ensures Renders(text + trail, text)
  {
    NoCloseInSpace(trail);
    TrimDropsTrail(text, trail);
    forall s: string, pos: nat, key: string ensures RendersAt(s, pos, key, text + trail, text) {
      if pos <= |s| && Next(s, pos, text + trail + "]") {
        PlainCloses(s, pos, text + trail);
        BareValueEnds(s, pos, key, text, pos + |text + trail|);
      }
    }
  }

  lemma QuotedCloses(s: string, pos: nat, value: string, end: nat, trail: string)
    requires pos + 1 < end < |s| && GivesText(ReadQuoted(s, pos + 1, pos, ""), value, end)
    requires AllSpace(trail) && Next(s, end, trail + "]")
    ensures GivesText(ReadQuotedValue(s, pos), value, end + |trail| + 1)
  {
    NextSplits(s, end, trail, "]");
    NextChar(s, end + |trail|, ']');
    SpaceRuns(s, end, trail);
  }

  lemma QuotedReads(s: string, pos: nat, pieces: seq<Piece>, trail: string)
    requires PiecesOk(pieces) && AllSpace(trail) && Next(s, pos, "\"" + (PiecesText(pieces) + "\"" + (trail + "]")))
    ensures pos < |s| && s[pos] == '"'
    ensures GivesText(ReadQuotedValue(s, pos), PiecesValue(pieces), pos + |PiecesText(pieces)| + |trail| + 3)
  {
    var inner := PiecesText(pieces) + "\"";
    NextSplits(s, pos, "\"", inner + (trail + "]"));
    NextChar(s, pos, '"');
    NextSplits(s, pos + 1, inner, trail + "]");
    PiecesRead(s, pos + 1, pos, "", pieces, ReadQuoted(s, pos + 1, pos, ""));
    assert "" + PiecesValue(pieces) == PiecesValue(pieces);
    QuotedCloses(s, pos, PiecesValue(pieces), pos + 1 + |inner|, trail);
  }

  lemma PiecesRender(pieces: seq<Piece>, trail: string)
    requires PiecesOk(pieces) && AllSpace(trail)
    ensures Renders("\"" + PiecesText(pieces) + "\"" + trail, PiecesValue(pieces))
  {
    var text := "\"" + PiecesText(pieces) + "\"" + trail;
    forall s: string, pos: nat, key: string ensures RendersAt(s, pos, key, text, PiecesValue(pieces)) {
      if pos <= |s| && Next(s, pos, text + "]") {
        assert text + "]" == "\"" + (PiecesText(pieces) + "\"" + (trail + "]"));
        QuotedReads(s, pos, pieces, trail);
      }
    }
  }

  lemma SpelledRenders(spelled: Spelled, trail: string)
    requires spelled.Ok() && AllSpace(trail)
    ensures Renders(spelled.Text() + trail, spelled.Value())
  {
    match spelled
    case Open(text) => OpenRenders(text, trail);
    case Quoted(pieces) => PiecesRender(pieces, trail);
  }

  // ---------------------------------------------------------------------------------
  // Criteria.

  /** One criterion with the spaces around its parts. */
  datatype Criterion = Criterion(lead: string, key: string, beforeOp: string, op: Op, afterOp: string,
                                 spelled: Spelled, trail: string)
  {
    predicate Ok() {
      && key != "" && IsIdent(key) && spelled.Ok()
      && AllSpace(lead) && AllSpace(beforeOp) && AllSpace(afterOp) && AllSpace(trail)
    }

    function ValueText(): string { spelled.Text() + trail }

    /** `=` or `~=` and a value. */
    function Rest(): string { beforeOp + ((if op.Equals? then "=" else "~=") + (afterOp + (ValueText() + "]"))) }

    function Text(): string { "[" + (lead + (key + Rest())) }

    function AsItem(): Item
      requires Ok()
    {
      Item(key, op, spelled.Value(), Text(), |lead|)
    }
  }

  lemma GapEnds(s: string, pos: nat, gap: string, next: string)
    requires AllSpace(gap) && Next(s, pos, gap + next) && next != "" && !IsSpace(next[0])
    ensures SpaceEnd(s, pos) == pos + |gap| < |s| && Next(s, pos + |gap|, next)
  {
    NextSplits(s, pos, gap, next);
    assert s[pos + |gap|] == next[0];
    SpaceRuns(s, pos, gap);
  }

  lemma ValueStarts(c: Criterion)
    requires c.Ok()
    ensures c.ValueText() + "]" != "" && !IsSpace((c.ValueText() + "]")[0])
  {
    assert c.spelled.Text() != "" && !IsSpace(c.spelled.Text()[0]);
    assert (c.ValueText() + "]")[0] == c.spelled.Text()[0];
  }

  lemma OpEnds(s: string, pos: nat, c: Criterion, opAt: nat, opEnd: nat)
    requires c.Ok() && Next(s, pos, c.Rest()) && opAt == pos + |c.beforeOp|
    requires opEnd == opAt + (if c.op.Equals? then 1 else 2)
    ensures opEnd <= |s| && SpaceEnd(s, pos) == opAt && ReadOp(s, opAt) == Some((c.op, opEnd))
    ensures Next(s, opEnd, c.afterOp + (c.ValueText() + "]"))
  {
    var op, value := (if c.op.Equals? then "=" else "~="), c.afterOp + (c.ValueText() + "]");
    assert (op + value)[0] == op[0];
    GapEnds(s, pos, c.beforeOp, op + value);
    NextSplits(s, opAt, op, value);
    OpReads(s, opAt, c.op);
  }

  lemma ValueEnds(s: string, pos: nat, c: Criterion, valueAt: nat, key: string)
    requires c.Ok() && pos <= |s| && Next(s, pos, c.afterOp + (c.ValueText() + "]")) && valueAt == pos + |c.afterOp|
    ensures SpaceEnd(s, pos) == valueAt <= |s|
    ensures GivesText(ReadValue(s, valueAt, key), c.spelled.Value(), valueAt + |c.ValueText()| + 1)
  {
    ValueStarts(c);
    GapEnds(s, pos, c.afterOp, c.ValueText() + "]");
    SpelledRenders(c.spelled, c.trail);
    RenderedReads(s, valueAt, key, c.ValueText(), c.spelled.Value());
  }

  lemma RestLength(c: Criterion)
    ensures |c.Rest()| == |c.beforeOp| + (if c.op.Equals? then 1 else 2) + |c.afterOp| + |c.ValueText()| + 1
  {
  }

  lemma AttrReads(s: string, pos: nat, at: nat, keyEnd: nat, opAt: nat, op: Op, opEnd: nat, valueAt: nat,
                  value: string, end: nat)
    requires pos <= at < keyEnd <= opAt < opEnd <= valueAt <= |s|
    requires SpaceEnd(s, pos) == at && IdentEnd(s, at) == keyEnd && SpaceEnd(s, keyEnd) == opAt
    requires ReadOp(s, opAt) == Some((op, opEnd)) && SpaceEnd(s, opEnd) == valueAt
    requires GivesText(ReadValue(s, valueAt, s[at..keyEnd]), value, end)
    ensures GivesAttr(ReadAttr(s, pos), Attr(s[at..keyEnd], op, value, at), end)
  {
  }

  lemma SpaceIsNoIdent(c: char)
    requires IsSpace(c)
    ensures !IsIdentChar(c)
  {
  }

  lemma RestStarts(c: Criterion)
    requires c.Ok()
    ensures c.Rest() != "" && !IsIdentChar(c.Rest()[0])
  {
    if c.beforeOp != "" {
      assert c.Rest()[0] == c.beforeOp[0] && c.beforeOp[0] in c.beforeOp;
      SpaceIsNoIdent(c.Rest()[0]);
    } else {
      assert c.Rest()[0] == (if c.op.Equals? then "=" else "~=")[0];
    }
  }

  /** Whatever the spaces and however the value is spelled, the criterion is read as key, operator and value. */
  lemma CriterionReads(s: string, pos: nat, c: Criterion)
    requires c.Ok() && Next(s, pos, c.lead + (c.key + c.Rest()))
    ensures pos + |c.lead| + |c.key| + |c.Rest()| <= |s|
    ensures GivesAttr(ReadAttr(s, pos), Attr(c.key, c.op, c.spelled.Value(), pos + |c.lead|),
                      pos + |c.lead| + |c.key| + |c.Rest()|)
  {
    var at, keyEnd := pos + |c.lead|, pos + |c.lead| + |c.key|;
    assert (c.key + c.Rest())[0] == c.key[0] && c.key[0] in c.key;
    GapEnds(s, pos, c.lead, c.key + c.Rest());
    NextSplits(s, at, c.key, c.Rest());
    RestStarts(c);
    assert s[keyEnd] == c.Rest()[0];
    IdentEnds(s, at, c.key);
    var opAt := keyEnd + |c.beforeOp|;
    var opEnd := opAt + (if c.op.Equals? then 1 else 2);
    var valueAt := opEnd + |c.afterOp|;
    OpEnds(s, keyEnd, c, opAt, opEnd);
    ValueEnds(s, opEnd, c, valueAt, s[at..keyEnd]);
    RestLength(c);
    AttrReads(s, pos, at, keyEnd, opAt, c.op, opEnd, valueAt, c.spelled.Value(), valueAt + |c.ValueText()| + 1);
  }

  lemma CriterionIsWritable(c: Criterion)
    requires c.Ok()
    ensures Writable(c.AsItem())
  {
    var item, rest := c.AsItem(), c.lead + (c.key + c.Rest());
    forall s: string, pos: nat ensures ReadsAt(s, pos, item) {
      if Next(s, pos, item.text) {
        NextSplits(s, pos, "[", rest);
        NextChar(s, pos, '[');
        CriterionReads(s, pos + 1, c);
      }
    }
  }
}

/**
 Structural inclusion of JSON values, and the tests that readouts are put to.
 */
module JsonIncludes {
  import opened Wrappers

  datatype Json =
    | Null
    | Bool(b: bool)
    | Number(n: int)
    | String(s: string)
    | Array(items: seq<Json>)
    | Object(fields: map<string, Json>)

  predicate PartAt(s: string, part: string, at: nat) {
    at + |part| <= |s| && s[at..at + |part|] == part
  }

  predicate Contains(s: string, part: string) {
    exists at: nat :: at <= |s| && PartAt(s, part, at)
  }

  predicate Includes(actual: Json, wanted: Json)
    decreases wanted, actual
  {
    if actual.Object? && wanted.Object? then
      forall key | key in wanted.fields :: key in actual.fields && Includes(actual.fields[key], wanted.fields[key])
    else if actual.Array? && wanted.Array? then
      forall i | 0 <= i < |wanted.items| :: SomeIncludes(actual.items, wanted.items[i])
    else if actual.Array? then SomeIncludes(actual.items, wanted)
    else if actual.String? && wanted.String? then Contains(actual.s, wanted.s)
    else actual == wanted
  }

  predicate SomeIncludes(items: seq<Json>, wanted: Json)
    decreases wanted, items
  {
    exists j :: 0 <= j < |items| && Includes(items[j], wanted)
  }

  lemma ContainsItself(s: string)
    ensures Contains(s, s)
  {
    assert PartAt(s, s, 0);
  }

  lemma ContainsThrough(a: string, b: string, c: string)
    requires Contains(a, b) && Contains(b, c)
    ensures Contains(a, c)
  {
    var i: nat :| i <= |a| && PartAt(a, b, i);
    var j: nat :| j <= |b| && PartAt(b, c, j);
    forall k | 0 <= k < |c| ensures a[i + j + k] == c[k] {
      assert a[i..i + |b|][j + k] == b[j..j + |c|][k];
    }
    assert a[i + j..i + j + |c|] == c;
    assert PartAt(a, c, i + j);
  }

  lemma {:induction false} IncludesItself(v: Json)
    ensures Includes(v, v)
    decreases v
  {
    match v
    case Object(fields) =>
      forall key | key in fields ensures Includes(fields[key], fields[key]) {
        IncludesItself(fields[key]);
      }
    case Array(items) =>
      forall i | 0 <= i < |items| ensures SomeIncludes(items, items[i]) {
        IncludesItself(items[i]);
      }
    case String(s) => ContainsItself(s);
    case Null =>
    case Bool(b) =>
    case Number(n) =>
  }

  /** Only an array includes an array. */
  lemma OnlyArraysIncludeArrays(a: Json, b: Json)
    requires Includes(a, b) && b.Array?
    ensures a.Array?
  {
  }

  lemma {:induction false} IncludesThrough(a: Json, b: Json, c: Json)
    requires Includes(a, b) && Includes(b, c)
    ensures Includes(a, c)
    decreases a
  {
    if a.Object? && b.Object? && c.Object? {
      forall key | key in c.fields ensures key in a.fields && Includes(a.fields[key], c.fields[key]) {
        IncludesThrough(a.fields[key], b.fields[key], c.fields[key]);
      }
    } else if a.Array? && b.Array? && c.Array? {
      forall i | 0 <= i < |c.items| ensures SomeIncludes(a.items, c.items[i]) {
        SomeIncludesThrough(a, b, c.items[i]);
      }
    } else if a.Array? && b.Array? {
      SomeIncludesThrough(a, b, c);
    } else if a.Array? {
      var k :| 0 <= k < |a.items| && Includes(a.items[k], b);
      IncludesThrough(a.items[k], b, c);
    } else if a.String? && b.String? && c.String? {
      ContainsThrough(a.s, b.s, c.s);
    }
  }

  lemma SomeIncludesThrough(a: Json, b: Json, c: Json)
    requires a.Array? && b.Array? && Includes(a, b) && SomeIncludes(b.items, c)
    ensures SomeIncludes(a.items, c)
    decreases a, 0
  {
    var j :| 0 <= j < |b.items| && Includes(b.items[j], c);
    assert SomeIncludes(a.items, b.items[j]);
    var k :| 0 <= k < |a.items| && Includes(a.items[k], b.items[j]);
    IncludesThrough(a.items[k], b.items[j], c);
  }

  // ---------------------------------------------------------------------------------
  // What inclusion is, told by its laws.

  /** What is promised of inclusion: a value includes itself, a text its parts, an object one with fewer keys and
      included values, an array what an element includes, and an array each element of which is included by one of
      its own. */
  ghost predicate Lawful(rel: (Json, Json) -> bool) {
    && (forall v :: rel(v, v))
    && (forall pre: string, part: string, post: string :: rel(String(pre + part + post), String(part)))
    && (forall a, b :: KeysWithin(rel, a, b) ==> rel(Object(a), Object(b)))
    && (forall a, w :: SomeWithin(rel, a, w) ==> rel(Array(a), w))
    && (forall a, b :: ItemsWithin(rel, a, b) ==> rel(Array(a), Array(b)))
  }

  ghost predicate KeysWithin(rel: (Json, Json) -> bool, a: map<string, Json>, b: map<string, Json>) {
    forall key <- b :: key in a && rel(a[key], b[key])
  }

  ghost predicate SomeWithin(rel: (Json, Json) -> bool, items: seq<Json>, wanted: Json) {
    exists j :: 0 <= j < |items| && rel(items[j], wanted)
  }

  ghost predicate ItemsWithin(rel: (Json, Json) -> bool, a: seq<Json>, b: seq<Json>) {
    forall i | 0 <= i < |b| :: SomeWithin(rel, a, b[i])
  }

  function Inclusion(): (Json, Json) -> bool { (a, b) => Includes(a, b) }

  lemma PartIsContained(pre: string, part: string, post: string)
    ensures Contains(pre + part + post, part)
  {
    assert PartAt(pre + part + post, part, |pre|);
  }

  lemma {:induction false} ElementWithin(a: Json, wanted: Json)
    requires a.Array? && SomeIncludes(a.items, wanted)
    ensures Includes(a, wanted)
    decreases wanted, a
  {
    if wanted.Array? {
      var k :| 0 <= k < |a.items| && Includes(a.items[k], wanted);
      forall i | 0 <= i < |wanted.items| ensures SomeIncludes(a.items, wanted.items[i]) {
        assert SomeIncludes(a.items[k].items, wanted.items[i]);
        ElementWithin(a.items[k], wanted.items[i]);
      }
    }
  }

  lemma InclusionIsLawful()
    ensures Lawful(Inclusion())
  {
    var rel := Inclusion();
    forall v ensures rel(v, v) { IncludesItself(v); }
    forall pre: string, part: string, post: string ensures rel(String(pre + part + post), String(part)) {
      PartIsContained(pre, part, post);
    }
    forall a, w | SomeWithin(rel, a, w) ensures rel(Array(a), w) {
      assert SomeIncludes(a, w);
      ElementWithin(Array(a), w);
    }
    forall a, b | ItemsWithin(rel, a, b) ensures rel(Array(a), Array(b)) {
      forall i | 0 <= i < |b| ensures SomeIncludes(a, b[i]) { assert SomeWithin(rel, a, b[i]); }
    }
  }

  lemma ContainedIsPart(s: string, part: string) returns (pre: string, post: string)
    requires Contains(s, part)
    ensures s == pre + part + post
  {
    var at: nat :| at <= |s| && PartAt(s, part, at);
    pre, post := s[..at], s[at + |part|..];
  }

  /** Inclusion obeys the laws and relates nothing but what they make it relate. */
  lemma {:induction false} InclusionIsLeast(rel: (Json, Json) -> bool, a: Json, b: Json)
    requires Lawful(rel) && Includes(a, b)
    ensures rel(a, b)
    decreases b, a
  {
    if a.Object? && b.Object? {
      forall key <- b.fields ensures key in a.fields && rel(a.fields[key], b.fields[key]) {
        InclusionIsLeast(rel, a.fields[key], b.fields[key]);
      }
      assert KeysWithin(rel, a.fields, b.fields);
    } else if a.Array? && b.Array? {
      forall i | 0 <= i < |b.items| ensures SomeWithin(rel, a.items, b.items[i]) {
        assert SomeIncludes(a.items, b.items[i]);
        var j :| 0 <= j < |a.items| && Includes(a.items[j], b.items[i]);
        InclusionIsLeast(rel, a.items[j], b.items[i]);
      }
      assert ItemsWithin(rel, a.items, b.items);
    } else if a.Array? {
      var j :| 0 <= j < |a.items| && Includes(a.items[j], b);
      InclusionIsLeast(rel, a.items[j], b);
      assert SomeWithin(rel, a.items, b);
    } else if a.String? && b.String? {
      var pre, post := ContainedIsPart(a.s, b.s);
      assert rel(String(pre + b.s + post), String(b.s));
    }
  }

  // ---------------------------------------------------------------------------------
  // Tests of a value.

  datatype ValueTest = Present | Absent | Equals(wanted: Json) | Including(wanted: Json)

  /** Whether the value selected, if any, passes; `null` counts as none. */
  predicate Holds(test: ValueTest, selected: Option<Json>) {
    var value := if selected == Some(Null) then None else selected;
    match test
    case Present => value.Some?
    case Absent => value.None?
    case Equals(wanted) => value == Some(wanted)
    case Including(wanted) => value.Some? && Includes(value.value, wanted)
  }

  /** A value that equals what is wanted includes it. */
  lemma EqualsIsStronger(wanted: Json, selected: Option<Json>)
    requires Holds(Equals(wanted), selected)
    ensures Holds(Including(wanted), selected)
  {
    IncludesItself(wanted);
  }

  /** Asking for less never makes a passing test fail. */
  lemma WeakerWantedStillHolds(strong: Json, weak: Json, selected: Option<Json>)
    requires Includes(strong, weak) && Holds(Including(strong), selected)
    ensures Holds(Including(weak), selected)
  {
    IncludesThrough(selected.value, strong, weak);
  }

  /** A readout that says more passes whatever the one it includes passes. */
  lemma RicherReadoutStillHolds(rich: Json, poor: Json, wanted: Json)
    requires Includes(rich, poor) && Holds(Including(wanted), Some(poor))
    ensures Holds(Including(wanted), Some(rich))
  {
    IncludesThrough(rich, poor, wanted);
  }

  /** Every other test that holds of a value shows it is present. */
  lemma HoldingMeansPresent(test: ValueTest, selected: Option<Json>)
    requires Holds(test, selected)
    ensures Holds(Present, selected) <==> test != Absent
    ensures Holds(Present, selected) <==> !Holds(Absent, selected)
  {
  }
}

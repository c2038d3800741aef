/** The text form of search filters (RFC 4515, without its escapes): a recursive-descent parser and its grammar. */
module LdapParser {
  import opened Common
  import opened LdapFilter

  const LPAREN: Byte := 0x28
  const RPAREN: Byte := 0x29
  const AMP: Byte := 0x26
  const PIPE: Byte := 0x7C
  const BANG: Byte := 0x21
  const EQUALS: Byte := 0x3D
  const STAR: Byte := 0x2A
  const COLON: Byte := 0x3A

  const MAX_FILTER_DEPTH: nat := 64

  /** The marker `dn` of an extensible match. */
  const DN: Text := [0x64, 0x6E]

  // ----- scanning -----

  /** How many bytes come before the first `x` or `y`. */
  function Until(s: Text, x: Byte, y: Byte): (n: nat)
    ensures n <= |s| && x !in s[..n] && y !in s[..n]
    ensures n < |s| ==> s[n] == x || s[n] == y
  {
    if s == [] || s[0] == x || s[0] == y then 0
    else
      var n := 1 + Until(s[1..], x, y);
      assert s[..n] == [s[0]] + s[1..][..n - 1];
      n
  }

  /** The pieces between separators; always at least one. */
  function Split(s: Text, sep: Byte): (r: seq<Text>)
    ensures |r| > 0
    decreases |s|
  {
    var n := Until(s, sep, sep);
    if n == |s| then [s] else [s[..n]] + Split(s[n + 1..], sep)
  }

  function NonEmpty(t: Text): Option<Text> { if t == [] then None else Some(t) }

  function DropEmpty(ts: seq<Text>): seq<Text>
  {
    if ts == [] then [] else (if ts[0] == [] then [] else [ts[0]]) + DropEmpty(ts[1..])
  }

  predicate Control(b: Byte) { b < 0x20 || b == 0x7F }

  predicate NoControl(t: Text) { forall b :: b in t ==> !Control(b) }

  /** The comparison operators that are not supported. */
  predicate Unsupported(b: Byte) { b == 0x7E || b == 0x3C || b == 0x3E }

  predicate Supported(t: Text) { forall b :: b in t ==> !Unsupported(b) }

  // ----- the parser -----

  function SubstringFilter(attr: Text, segments: seq<Text>): Result<Filter>
    requires |segments| >= 2
  {
    if exists i :: 0 <= i < |segments| && !NoControl(segments[i]) then Err
    else
      var last := |segments| - 1;
      Ok(Substrings(attr, NonEmpty(segments[0]), DropEmpty(segments[1..last]), NonEmpty(segments[last])))
  }

  /** A filter without colons in its description. */
  function PlainFilter(attr: Text, value: Text): Result<Filter>
  {
    if value == [STAR] then Ok(Present(attr))
    else if STAR in value then
      var segments := Split(value, STAR);
      if |segments| >= 2 then SubstringFilter(attr, segments) else Err
    else Ok(Equality(attr, value))
  }

  /** The tokens after the attribute type: at most one `dn` and at most one matching rule. */
  function Marks(tokens: seq<Text>, dn: bool, rule: Option<Text>): Result<(bool, Option<Text>)>
  {
    if tokens == [] then Ok((dn, rule))
    else if tokens[0] == DN then (if dn then Err else Marks(tokens[1..], true, rule))
    else if tokens[0] == [] || rule.Some? then Err
    else Marks(tokens[1..], dn, Some(tokens[0]))
  }

  predicate OptionNoControl(t: Option<Text>) { t.Some? ==> NoControl(t.value) }

  function ExtensibleFilter(desc: Text, value: Text): Result<Filter>
  {
    ExtensibleOf(Split(desc, COLON), value)
  }

  function ExtensibleOf(tokens: seq<Text>, value: Text): Result<Filter>
    requires tokens != []
  {
    var n := |tokens| - 1;
    if tokens[n] != [] || n == 0 then Err
    else
      match Marks(tokens[1..n], false, None)
      case Err => Err
      case Ok((dn, rule)) =>
        var attrType := NonEmpty(tokens[0]);
        if attrType.None? && rule.None? then Err
        else if !NoControl(value) || !OptionNoControl(attrType) || !OptionNoControl(rule) then Err
        else Ok(Extensible(rule, attrType, value, dn))
  }

  function LeafFilter(desc: Text, value: Text): Result<Filter>
  {
    if COLON in desc then ExtensibleFilter(desc, value) else PlainFilter(desc, value)
  }

  /** A description, `=`, and a value up to the closing parenthesis; what follows is left. */
  function ParseSimple(s: Text): (r: Result<(Filter, Text)>)
    ensures r.Ok? ==> |r.value.1| <= |s|
  {
    var n := Until(s, EQUALS, RPAREN);
    if !Supported(s[..n]) || n == |s| || s[n] != EQUALS then Err
    else
      var rest := s[n + 1..];
      var m := Until(rest, RPAREN, RPAREN);
      match LeafFilter(s[..n], rest[..m])
      case Err => Err
      case Ok(f) => Ok((f, rest[m..]))
  }

  function Parse(s: Text, depth: nat): (r: Result<(Filter, Text)>)
    ensures r.Ok? ==> |r.value.1| < |s|
    decreases |s|, 0
  {
    if depth > MAX_FILTER_DEPTH || |s| < 2 || s[0] != LPAREN then Err
    else
      match ParseInside(s[1..], depth)
      case Err => Err
      case Ok((f, rest)) => if rest != [] && rest[0] == RPAREN then Ok((f, rest[1..])) else Err
  }

  function ParseInside(s: Text, depth: nat): (r: Result<(Filter, Text)>)
    requires s != []
    ensures r.Ok? ==> |r.value.1| <= |s|
    decreases |s|, 3
  {
    if s[0] == AMP then
      match ParseList(s[1..], depth + 1) case Err => Err case Ok((items, rest)) => Ok((And(items), rest))
    else if s[0] == PIPE then
      match ParseList(s[1..], depth + 1) case Err => Err case Ok((items, rest)) => Ok((Or(items), rest))
    else if s[0] == BANG then
      match Parse(s[1..], depth + 1) case Err => Err case Ok((inner, rest)) => Ok((Not(inner), rest))
    else ParseSimple(s)
  }

  function ParseList(s: Text, depth: nat): (r: Result<(seq<Filter>, Text)>)
    ensures r.Ok? ==> |r.value.1| <= |s|
    decreases |s|, 2
  {
    match ParseItems(s, depth)
    case Err => Err
    case Ok((items, rest)) => if items == [] then Err else Ok((items, rest))
  }

  function ParseItems(s: Text, depth: nat): (r: Result<(seq<Filter>, Text)>)
    ensures r.Ok? ==> |r.value.1| <= |s|
    decreases |s|, 1
  {
    if s == [] || s[0] != LPAREN then Ok(([], s))
    else
      match Parse(s, depth)
      case Err => Err
      case Ok((f, rest)) =>
        match ParseItems(rest, depth)
        case Err => Err
        case Ok((fs, last)) => Ok(([f] + fs, last))
  }

  /** Accepts only what it consumes entirely. */
  function ParseFilter(s: Text): Result<Filter>
  {
    match Parse(s, 0)
    case Err => Err
    case Ok((f, rest)) => if rest == [] then Ok(f) else Err
  }

  // ----- the grammar: how a tree is written, in ASCII: ( ) & | ! = * : are 28 29 26 7C 21 3D 2A 3A -----

  function Written(t: Option<Text>): Text { if t.Some? then t.value else [] }

  /** Each piece followed by the separator. */
  function Joined(ts: seq<Text>, sep: Byte): Text
  {
    if ts == [] then [] else ts[0] + [sep] + Joined(ts[1..], sep)
  }

  function SubstringText(initial: Option<Text>, any: seq<Text>, final_: Option<Text>): Text
  {
    if initial.None? && any == [] && final_.None? then [0x2A, 0x2A]
    else Written(initial) + [0x2A] + (Joined(any, 0x2A) + Written(final_))
  }

  function MarkTokens(rule: Option<Text>, dn: bool): seq<Text>
  {
    (if dn then [[0x64, 0x6E]] else []) + (if rule.Some? then [rule.value] else [])
  }

  function Description(rule: Option<Text>, attrType: Option<Text>, dn: bool): Text
  {
    Written(attrType) + [0x3A] + Joined(MarkTokens(rule, dn), 0x3A)
  }

  /** The two sides of a leaf's `=`. */
  function LeafParts(f: Filter): (Text, Text)
    requires !f.And? && !f.Or? && !f.Not?
  {
    match f
    case Equality(attr, value) => (attr, value)
    case Substrings(attr, initial, any, final_) => (attr, SubstringText(initial, any, final_))
    case Present(attr) => (attr, [0x2A])
    case Extensible(rule, attrType, value, dn) => (Description(rule, attrType, dn), value)
  }

  function Inside(f: Filter): Text
    decreases f, 0
  {
    match f
    case And(items) => [0x26] + PrintAll(items)
    case Or(items) => [0x7C] + PrintAll(items)
    case Not(inner) => [0x21] + Print(inner)
    case _ => LeafParts(f).0 + [0x3D] + LeafParts(f).1
  }

  function Print(f: Filter): Text
    decreases f, 1
  {
    [0x28] + Inside(f) + [0x29]
  }

  function PrintAll(items: seq<Filter>): Text
    decreases items, 0
  {
    if items == [] then [] else Print(items[0]) + PrintAll(items[1..])
  }

  // ----- which trees the grammar covers -----

  /** Usable on the left of `=` without ending it, without `~`, `<` and `>`, and not taken for a group. */
  predicate Descriptive(t: Text)
  {
    && 0x3D !in t && 0x29 !in t && 0x7E !in t && 0x3C !in t && 0x3E !in t
    && (t != [] ==> t[0] != 0x26 && t[0] != 0x7C && t[0] != 0x21)
  }

  predicate Valued(t: Text) { 0x29 !in t }

  /** Neither one of the first 32 characters nor DEL. */
  predicate Clean(t: Text) { forall b :: b in t ==> b >= 0x20 && b != 0x7F }

  predicate Segment(t: Text) { t != [] && 0x29 !in t && 0x2A !in t && Clean(t) }

  predicate Token(t: Text) { t != [] && 0x3A !in t && Clean(t) }

  predicate OptionSegment(t: Option<Text>) { t.Some? ==> Segment(t.value) }

  predicate WellFormedLeaf(f: Filter)
    requires !f.And? && !f.Or? && !f.Not?
  {
    match f
    case Equality(attr, value) => Descriptive(attr) && 0x3A !in attr && Valued(value) && 0x2A !in value
    case Substrings(attr, initial, any, final_) =>
      && Descriptive(attr) && 0x3A !in attr && OptionSegment(initial) && OptionSegment(final_)
      && forall i :: 0 <= i < |any| ==> Segment(any[i])
    case Present(attr) => Descriptive(attr) && 0x3A !in attr
    case Extensible(rule, attrType, value, dn) =>
      && (rule.Some? || attrType.Some?) && Valued(value) && Clean(value)
      && (rule.Some? ==> Token(rule.value) && rule.value != [0x64, 0x6E]) && (attrType.Some? ==> Token(attrType.value))
      && Descriptive(Description(rule, attrType, dn))
  }

  predicate WellFormed(f: Filter)
    decreases f, 0
  {
    match f
    case And(items) => items != [] && AllWellFormed(items)
    case Or(items) => items != [] && AllWellFormed(items)
    case Not(inner) => WellFormed(inner)
    case _ => WellFormedLeaf(f)
  }

  predicate AllWellFormed(items: seq<Filter>)
    decreases items, 0
  {
    items == [] || (WellFormed(items[0]) && AllWellFormed(items[1..]))
  }

  /** How deep groups nest. */
  function Depth(f: Filter): nat
    decreases f, 0
  {
    match f
    case And(items) => 1 + MaxDepth(items)
    case Or(items) => 1 + MaxDepth(items)
    case Not(inner) => 1 + Depth(inner)
    case _ => 0
  }

  function MaxDepth(items: seq<Filter>): nat
    decreases items, 0
  {
    if items == [] then 0
    else
      var a, b := Depth(items[0]), MaxDepth(items[1..]);
      if a < b then b else a
  }

  // ----- scanning what was written -----

  lemma {:induction false} UntilFound(a: Text, sep: Byte, b: Text, x: Byte, y: Byte)
    requires x !in a && y !in a && (sep == x || sep == y)
    ensures Until(a + [sep] + b, x, y) == |a|
    decreases |a|
  {
    if a != [] {
      assert (a + [sep] + b)[1..] == a[1..] + [sep] + b;
      UntilFound(a[1..], sep, b, x, y);
    }
  }

  lemma {:induction false} UntilAbsent(a: Text, x: Byte, y: Byte)
    requires x !in a && y !in a
    ensures Until(a, x, y) == |a|
    decreases |a|
  {
    if a != [] {
      UntilAbsent(a[1..], x, y);
    }
  }

  lemma SplitFirst(a: Text, sep: Byte, b: Text)
    requires sep !in a
    ensures Split(a + [sep] + b, sep) == [a] + Split(b, sep)
  {
    UntilFound(a, sep, b, sep, sep);
    assert (a + [sep] + b)[..|a|] == a && (a + [sep] + b)[|a| + 1..] == b;
  }

  lemma {:induction false} SplitJoined(ts: seq<Text>, last: Text, sep: Byte)
    requires (forall i :: 0 <= i < |ts| ==> sep !in ts[i]) && sep !in last
    ensures Split(Joined(ts, sep) + last, sep) == ts + [last]
    decreases |ts|
  {
    if ts == [] {
      assert Joined(ts, sep) + last == last;
      UntilAbsent(last, sep, sep);
    } else {
      SplitJoined(ts[1..], last, sep);
      assert Joined(ts, sep) + last == ts[0] + [sep] + (Joined(ts[1..], sep) + last);
      SplitFirst(ts[0], sep, Joined(ts[1..], sep) + last);
      assert ts + [last] == [ts[0]] + (ts[1..] + [last]);
    }
  }

  /** No separator, and nothing that was not there. */
  predicate Part(t: Text, s: Text, sep: Byte) { sep !in t && forall b :: b in t ==> b in s }

  /** What splitting yields contains no separator and nothing that was not there. */
  lemma {:induction false} SplitParts(s: Text, sep: Byte)
    ensures forall i :: 0 <= i < |Split(s, sep)| ==> Part(Split(s, sep)[i], s, sep)
    ensures sep in s ==> |Split(s, sep)| >= 2
    decreases |s|
  {
    var n := Until(s, sep, sep);
    assert Part(s[..n], s, sep);
    if n < |s| {
      SplitParts(s[n + 1..], sep);
      forall i | 0 <= i < |Split(s, sep)|
        ensures Part(Split(s, sep)[i], s, sep)
      {
        if i > 0 {
          assert Part(Split(s[n + 1..], sep)[i - 1], s[n + 1..], sep);
        }
      }
    } else {
      assert s[..n] == s;
    }
  }

  // ----- leaves -----

  lemma {:induction false} NothingEmpty(ts: seq<Text>)
    requires forall i :: 0 <= i < |ts| ==> ts[i] != []
    ensures DropEmpty(ts) == ts
  {
    if ts != [] {
      NothingEmpty(ts[1..]);
    }
  }

  lemma SubstringSplit(initial: Option<Text>, any: seq<Text>, final_: Option<Text>)
    requires OptionSegment(initial) && OptionSegment(final_) && forall i :: 0 <= i < |any| ==> Segment(any[i])
    requires initial.Some? || any != [] || final_.Some?
    ensures Split(SubstringText(initial, any, final_), STAR) == [Written(initial)] + (any + [Written(final_)])
  {
    SplitJoined(any, Written(final_), STAR);
    SplitFirst(Written(initial), STAR, Joined(any, STAR) + Written(final_));
  }

  lemma SplitStars()
    ensures Split([STAR, STAR], STAR) == [[], [], []]
  {
    SplitFirst([], STAR, [STAR]);
    SplitFirst([], STAR, []);
    assert [] + [STAR] + [STAR] == [STAR, STAR] && [] + [STAR] + [] == [STAR];
    assert Split([], STAR) == [[]];
  }

  lemma SegmentsMean(attr: Text, initial: Option<Text>, any: seq<Text>, final_: Option<Text>)
    requires OptionSegment(initial) && OptionSegment(final_) && forall i :: 0 <= i < |any| ==> Segment(any[i])
    ensures SubstringFilter(attr, [Written(initial)] + (any + [Written(final_)]))
            == Ok(Substrings(attr, initial, any, final_))
  {
    var segments := [Written(initial)] + (any + [Written(final_)]);
    NothingEmpty(any);
    assert segments[1..|segments| - 1] == any;
    assert forall i :: 0 <= i < |segments| ==> NoControl(segments[i]);
  }

  lemma StarIsThere(initial: Option<Text>, any: seq<Text>, final_: Option<Text>)
    requires OptionSegment(initial) && OptionSegment(final_) && forall i :: 0 <= i < |any| ==> Segment(any[i])
    ensures STAR in SubstringText(initial, any, final_) && SubstringText(initial, any, final_) != [STAR]
    ensures RPAREN !in SubstringText(initial, any, final_)
  {
    var t := SubstringText(initial, any, final_);
    if initial.Some? || any != [] || final_.Some? {
      assert t[|Written(initial)|] == STAR;
      assert any != [] ==> Joined(any, STAR)[0] == any[0][0];
      JoinedHas(any, STAR, RPAREN);
    }
  }

  lemma {:induction false} JoinedHas(ts: seq<Text>, sep: Byte, b: Byte)
    requires b != sep && forall i :: 0 <= i < |ts| ==> b !in ts[i]
    ensures b !in Joined(ts, sep)
  {
    if ts != [] {
      JoinedHas(ts[1..], sep, b);
    }
  }

  lemma SubstringLeaf(attr: Text, initial: Option<Text>, any: seq<Text>, final_: Option<Text>)
    requires WellFormedLeaf(Substrings(attr, initial, any, final_))
    ensures LeafFilter(attr, SubstringText(initial, any, final_)) == Ok(Substrings(attr, initial, any, final_))
  {
    StarIsThere(initial, any, final_);
    if initial.Some? || any != [] || final_.Some? {
      SubstringSplit(initial, any, final_);
      SegmentsMean(attr, initial, any, final_);
    } else {
      SplitStars();
      var segments: seq<Text> := [[], [], []];
      assert segments[1..2] == [[]];
      assert DropEmpty(segments[1..2]) == [];
    }
  }

  lemma MarksMean(rule: Option<Text>, dn: bool)
    requires rule.Some? ==> rule.value != DN && rule.value != []
    ensures Marks(MarkTokens(rule, dn), false, None) == Ok((dn, rule))
  {
    var tokens := MarkTokens(rule, dn);
    var last: seq<Text> := if rule.Some? then [rule.value] else [];
    assert Marks(last, dn, None) == Ok((dn, rule));
    if dn {
      assert tokens[1..] == last;
    } else {
      assert tokens == last;
    }
  }

  lemma DescriptionSplit(rule: Option<Text>, attrType: Option<Text>, dn: bool)
    requires (rule.Some? ==> Token(rule.value)) && (attrType.Some? ==> Token(attrType.value))
    ensures COLON in Description(rule, attrType, dn)
    ensures Split(Description(rule, attrType, dn), COLON) == [Written(attrType)] + (MarkTokens(rule, dn) + [[]])
  {
    var desc, marks := Description(rule, attrType, dn), MarkTokens(rule, dn);
    assert desc[|Written(attrType)|] == COLON;
    assert Joined(marks, COLON) + [] == Joined(marks, COLON);
    SplitJoined(marks, [], COLON);
    SplitFirst(Written(attrType), COLON, Joined(marks, COLON));
  }

  lemma TokensMean(rule: Option<Text>, attrType: Option<Text>, value: Text, dn: bool, marks: seq<Text>)
    requires WellFormedLeaf(Extensible(rule, attrType, value, dn)) && Marks(marks, false, None) == Ok((dn, rule))
    ensures ExtensibleOf([Written(attrType)] + (marks + [[]]), value) == Ok(Extensible(rule, attrType, value, dn))
  {
    var tokens := [Written(attrType)] + (marks + [[]]);
    assert tokens[1..|tokens| - 1] == marks;
  }

  lemma ExtensibleLeaf(rule: Option<Text>, attrType: Option<Text>, value: Text, dn: bool)
    requires WellFormedLeaf(Extensible(rule, attrType, value, dn))
    ensures LeafFilter(Description(rule, attrType, dn), value) == Ok(Extensible(rule, attrType, value, dn))
  {
    DescriptionSplit(rule, attrType, dn);
    MarksMean(rule, dn);
    TokensMean(rule, attrType, value, dn, MarkTokens(rule, dn));
  }

  /** The two sides of a well-formed leaf are read back as the leaf. */
  lemma LeafMeans(f: Filter)
    requires !f.And? && !f.Or? && !f.Not? && WellFormedLeaf(f)
    ensures LeafFilter(LeafParts(f).0, LeafParts(f).1) == Ok(f)
    ensures Descriptive(LeafParts(f).0) && Valued(LeafParts(f).1)
  {
    match f
    case Substrings(attr, initial, any, final_) =>
      SubstringLeaf(attr, initial, any, final_);
      StarIsThere(initial, any, final_);
    case Extensible(rule, attrType, value, dn) => ExtensibleLeaf(rule, attrType, value, dn);
    case _ =>
  }

  lemma SimpleReads(desc: Text, value: Text, f: Filter, more: Text)
    requires Descriptive(desc) && Valued(value) && LeafFilter(desc, value) == Ok(f)
    ensures ParseSimple(desc + [EQUALS] + value + ([RPAREN] + more)) == Ok((f, [RPAREN] + more))
  {
    var s, rest := desc + [EQUALS] + value + ([RPAREN] + more), value + [RPAREN] + more;
    assert s == desc + [EQUALS] + rest;
    Found(desc, EQUALS, rest, EQUALS, RPAREN);
    Found(value, RPAREN, more, RPAREN, RPAREN);
    assert rest[|value|..] == [RPAREN] + more;
  }

  lemma Found(a: Text, sep: Byte, b: Text, x: Byte, y: Byte)
    requires x !in a && y !in a && (sep == x || sep == y)
    ensures var s := a + [sep] + b;
            Until(s, x, y) == |a| && s[..|a|] == a && s[|a|] == sep && s[|a| + 1..] == b
  {
    UntilFound(a, sep, b, x, y);
  }

  lemma LeafInsideReads(f: Filter, more: Text, depth: nat)
    requires !f.And? && !f.Or? && !f.Not? && WellFormedLeaf(f)
    ensures var s := Inside(f) + ([RPAREN] + more);
            s != [] && ParseInside(s, depth) == Ok((f, [RPAREN] + more))
  {
    LeafMeans(f);
    var (desc, value) := LeafParts(f);
    SimpleReads(desc, value, f, more);
    var s := Inside(f) + ([RPAREN] + more);
    assert s[0] == if desc == [] then EQUALS else desc[0];
  }

  // ----- whole trees -----

  /** What reading a written tree at some depth yields. */
  function Expected<T>(v: T, rest: Text, fits: bool): Result<(T, Text)> { if fits then Ok((v, rest)) else Err }

  lemma InsideShape(f: Filter, more: Text)
    ensures Print(f) + more == [LPAREN] + (Inside(f) + ([RPAREN] + more))
    ensures ([LPAREN] + (Inside(f) + ([RPAREN] + more)))[1..] == Inside(f) + ([RPAREN] + more)
  {
  }

  lemma Closes(f: Filter, more: Text, depth: nat, fits: bool)
    requires depth <= MAX_FILTER_DEPTH
    requires ParseInside(Inside(f) + ([RPAREN] + more), depth) == Expected(f, [RPAREN] + more, fits)
    ensures Parse(Print(f) + more, depth) == Expected(f, more, fits)
  {
    InsideShape(f, more);
    assert ([RPAREN] + more)[1..] == more;
  }

  /** A well-formed tree reads back exactly when it nests within the limit, whatever follows it. */
  lemma {:induction false} TreeReads(f: Filter, more: Text, depth: nat)
    requires WellFormed(f)
    ensures Parse(Print(f) + more, depth) == Expected(f, more, depth + Depth(f) <= MAX_FILTER_DEPTH)
    decreases f, 1
  {
    if depth <= MAX_FILTER_DEPTH {
      InsideReads(f, more, depth);
      Closes(f, more, depth, depth + Depth(f) <= MAX_FILTER_DEPTH);
    }
  }

  lemma {:induction false} InsideReads(f: Filter, more: Text, depth: nat)
    requires WellFormed(f) && depth <= MAX_FILTER_DEPTH
    ensures ParseInside(Inside(f) + ([RPAREN] + more), depth)
            == Expected(f, [RPAREN] + more, depth + Depth(f) <= MAX_FILTER_DEPTH)
    decreases f, 0
  {
    var s := Inside(f) + ([RPAREN] + more);
    match f
    case And(items) =>
      assert s[1..] == PrintAll(items) + ([RPAREN] + more);
      ItemsRead(items, more, depth + 1);
    case Or(items) =>
      assert s[1..] == PrintAll(items) + ([RPAREN] + more);
      ItemsRead(items, more, depth + 1);
    case Not(inner) =>
      assert s[1..] == Print(inner) + ([RPAREN] + more);
      TreeReads(inner, [RPAREN] + more, depth + 1);
    case _ => LeafInsideReads(f, more, depth);
  }

  lemma {:induction false} ItemsRead(items: seq<Filter>, more: Text, depth: nat)
    requires AllWellFormed(items)
    ensures items != [] ==> ParseItems(PrintAll(items) + ([RPAREN] + more), depth)
                            == Expected(items, [RPAREN] + more, depth + MaxDepth(items) <= MAX_FILTER_DEPTH)
    ensures items == [] ==> ParseItems(PrintAll(items) + ([RPAREN] + more), depth) == Ok(([], [RPAREN] + more))
    decreases items, 0
  {
    var tail := [RPAREN] + more;
    if items == [] {
      assert PrintAll(items) + tail == tail;
    } else {
      assert PrintAll(items) + tail == Print(items[0]) + (PrintAll(items[1..]) + tail);
      TreeReads(items[0], PrintAll(items[1..]) + tail, depth);
      ItemsRead(items[1..], more, depth);
      assert [items[0]] + items[1..] == items;
    }
  }

  // ----- everything accepted is well formed -----

  lemma SubstringsWellFormed(attr: Text, value: Text)
    requires Descriptive(attr) && COLON !in attr && Valued(value)
    requires |Split(value, STAR)| >= 2 && SubstringFilter(attr, Split(value, STAR)).Ok?
    ensures var f := SubstringFilter(attr, Split(value, STAR)).value;
            f.Substrings? && WellFormedLeaf(f)
  {
    var segments := Split(value, STAR);
    SplitParts(value, STAR);
    forall i | 0 <= i < |segments| && segments[i] != []
      ensures Segment(segments[i])
    {
      assert Part(segments[i], value, STAR);
    }
    KeptSegments(segments[1..|segments| - 1]);
  }

  lemma {:induction false} KeptSegments(ts: seq<Text>)
    requires forall i :: 0 <= i < |ts| && ts[i] != [] ==> Segment(ts[i])
    ensures forall i :: 0 <= i < |DropEmpty(ts)| ==> Segment(DropEmpty(ts)[i])
  {
    if ts != [] {
      KeptSegments(ts[1..]);
    }
  }

  lemma {:induction false} MarksFound(tokens: seq<Text>, dn: bool, rule: Option<Text>)
    requires Marks(tokens, dn, rule).Ok?
    ensures var (dn1, rule1) := Marks(tokens, dn, rule).value;
            rule1 == rule || (rule1.Some? && rule1.value in tokens && rule1.value != [] && rule1.value != DN)
  {
    if tokens != [] {
      if tokens[0] == DN {
        MarksFound(tokens[1..], true, rule);
      } else {
        MarksFound(tokens[1..], dn, Some(tokens[0]));
      }
    }
  }

  lemma ExtensibleWellFormed(desc: Text, value: Text)
    requires Descriptive(desc) && Valued(value) && ExtensibleFilter(desc, value).Ok?
    ensures var f := ExtensibleFilter(desc, value).value;
            f.Extensible? && WellFormedLeaf(f)
  {
    var tokens := Split(desc, COLON);
    var n := |tokens| - 1;
    SplitParts(desc, COLON);
    MarksFound(tokens[1..n], false, None);
    var f := ExtensibleFilter(desc, value).value;
    if f.rule.Some? {
      var i :| 0 <= i < n - 1 && tokens[1..n][i] == f.rule.value;
      assert Part(tokens[i + 1], desc, COLON);
    }
    assert Part(tokens[0], desc, COLON);
    DescribedAgain(desc, tokens[0], f.rule, f.attrType, f.dnAttributes);
  }

  lemma DescribedAgain(desc: Text, first: Text, rule: Option<Text>, attrType: Option<Text>, dn: bool)
    requires Descriptive(desc) && attrType == NonEmpty(first) && |desc| >= |first| && desc[..|first|] == first
    requires rule.Some? ==> forall b :: b in rule.value ==> b in desc
    ensures Descriptive(Description(rule, attrType, dn))
  {
    var again, marks := Description(rule, attrType, dn), MarkTokens(rule, dn);
    assert forall b :: b in first ==> b in desc;
    JoinedOf(marks, COLON, desc);
    assert forall b :: b in again ==> b in desc || b == COLON || b in DN;
  }

  lemma {:induction false} JoinedOf(ts: seq<Text>, sep: Byte, from: Text)
    requires forall i, b :: 0 <= i < |ts| && b in ts[i] ==> b in from || b in DN
    ensures forall b :: b in Joined(ts, sep) ==> b in from || b in DN || b == sep
  {
    if ts != [] {
      JoinedOf(ts[1..], sep, from);
    }
  }

  lemma SimpleWellFormed(s: Text)
    requires s != [] && s[0] != AMP && s[0] != PIPE && s[0] != BANG && ParseSimple(s).Ok?
    ensures var f := ParseSimple(s).value.0;
            !f.And? && !f.Or? && !f.Not? && WellFormedLeaf(f)
  {
    var n := Until(s, EQUALS, RPAREN);
    var rest := s[n + 1..];
    var desc, value := s[..n], rest[..Until(rest, RPAREN, RPAREN)];
    if COLON in desc {
      ExtensibleWellFormed(desc, value);
    } else if value != [STAR] && STAR in value {
      SubstringsWellFormed(desc, value);
    }
  }

  /** Every tree the parser yields is one the grammar covers, nested within the limit. */
  lemma {:induction false} ParsedIsWellFormed(s: Text, depth: nat)
    requires Parse(s, depth).Ok?
    ensures WellFormed(Parse(s, depth).value.0) && depth + Depth(Parse(s, depth).value.0) <= MAX_FILTER_DEPTH
    decreases |s|, 0
  {
    InsideWellFormed(s[1..], depth);
  }

  lemma {:induction false} InsideWellFormed(s: Text, depth: nat)
    requires s != [] && depth <= MAX_FILTER_DEPTH && ParseInside(s, depth).Ok?
    ensures WellFormed(ParseInside(s, depth).value.0)
            && depth + Depth(ParseInside(s, depth).value.0) <= MAX_FILTER_DEPTH
    decreases |s|, 2
  {
    if s[0] == AMP || s[0] == PIPE {
      var items := ParseItems(s[1..], depth + 1).value.0;
      ItemsWellFormed(s[1..], depth + 1);
    } else if s[0] == BANG {
      ParsedIsWellFormed(s[1..], depth + 1);
    } else {
      SimpleWellFormed(s);
    }
  }

  lemma {:induction false} ItemsWellFormed(s: Text, depth: nat)
    requires ParseItems(s, depth).Ok?
    ensures AllWellFormed(ParseItems(s, depth).value.0)
    ensures ParseItems(s, depth).value.0 != [] ==> depth + MaxDepth(ParseItems(s, depth).value.0) <= MAX_FILTER_DEPTH
    decreases |s|, 1
  {
    if s != [] && s[0] == LPAREN {
      ParsedIsWellFormed(s, depth);
      ItemsWellFormed(Parse(s, depth).value.1, depth);
      var items := ParseItems(s, depth).value.0;
      assert items[1..] == ParseItems(Parse(s, depth).value.1, depth).value.0;
    }
  }

  // ----- the two directions together -----

  /** A well-formed tree is recovered from its text exactly when it nests within the limit. */
  lemma ParseInvertsPrint(f: Filter)
    requires WellFormed(f)
    ensures ParseFilter(Print(f)) == if Depth(f) <= 64 then Ok(f) else Err
  {
    TreeReads(f, [], 0);
    assert Print(f) + [] == Print(f);
  }

  /**
   * The parser yields exactly the well-formed trees within the limit, and what it yields can be written and read
   * again.
   */
  lemma AcceptedTrees(f: Filter, s: Text)
    ensures ParseFilter(s) == Ok(f) ==> WellFormed(f) && Depth(f) <= 64 && ParseFilter(Print(f)) == Ok(f)
    ensures WellFormed(f) && Depth(f) <= 64 ==> ParseFilter(Print(f)) == Ok(f)
  {
    if ParseFilter(s) == Ok(f) {
      ParsedIsWellFormed(s, 0);
    }
    if WellFormed(f) {
      ParseInvertsPrint(f);
    }
  }
}

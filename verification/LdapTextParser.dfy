/** The parser as it runs: a cursor over the filter's bytes, advanced by mutually recursive methods. */
module LdapTextParser {
  import opened Common
  import opened LdapFilter
  import opened LdapParser

  /** The scan stops at the first `x` or `y`, and its text is supported when each byte before it is. */
  lemma UntilAt(s: Text, x: Byte, y: Byte, i: nat)
    requires i <= Until(s, x, y) && i < |s|
    ensures i == Until(s, x, y) <==> s[i] == x || s[i] == y
    ensures Supported(s[..i]) && !Unsupported(s[i]) ==> Supported(s[..i + 1])
    ensures i < Until(s, x, y) && Unsupported(s[i]) ==> !Supported(s[..Until(s, x, y)])
  {
    var n := Until(s, x, y);
    if i < n {
      assert s[i] == s[..n][i];
    }
    assert s[..i + 1] == s[..i] + [s[i]];
  }

  class FilterParser {
    const bytes: Text
    var pos: nat

    ghost predicate Valid()
      reads this
    {
      pos <= |bytes|
    }

    /** What has not been read yet. */
    function Rest(): Text
      reads this
      requires Valid()
    {
      bytes[pos..]
    }

    constructor (s: Text)
      ensures Valid() && bytes == s && pos == 0
    {
      bytes, pos := s, 0;
    }

    method Peek() returns (c: Option<Byte>)
      requires Valid()
      ensures c == if Rest() == [] then None else Some(Rest()[0])
    {
      c := if pos < |bytes| then Some(bytes[pos]) else None;
    }

    method Bump() returns (c: Option<Byte>)
      requires Valid()
      modifies this
      ensures Valid() && c == if old(Rest()) == [] then None else Some(old(Rest())[0])
      ensures pos == if old(Rest()) == [] then old(pos) else old(pos) + 1
    {
      c := Peek();
      if c.Some? {
        pos := pos + 1;
      }
    }

    method ExpectByte(c: Byte) returns (ok: bool)
      requires Valid()
      modifies this
      ensures Valid() && ok == (old(Rest()) != [] && old(Rest())[0] == c)
      ensures old(pos) <= pos && (ok ==> pos == old(pos) + 1)
    {
      var got := Bump();
      ok := got == Some(c);
    }

    method ParseFilterAt(depth: nat) returns (r: Result<Filter>)
      requires Valid()
      modifies this
      ensures Valid() && old(pos) <= pos
      ensures match Parse(old(Rest()), depth)
              case Err => r == Err
              case Ok((f, rest)) => r == Ok(f) && Rest() == rest && pos > old(pos)
      decreases |bytes| - pos, 0
    {
      if depth > MAX_FILTER_DEPTH {
        return Err;
      }
      var open := ExpectByte(LPAREN);
      if !open || pos == |bytes| {
        return Err;
      }
      r := ParseBody(depth);
      if r.Err? {
        return;
      }
      var closed := ExpectByte(RPAREN);
      if !closed {
        r := Err;
      }
    }

    /** What stands between the parentheses. */
    method ParseBody(depth: nat) returns (r: Result<Filter>)
      requires Valid() && Rest() != []
      modifies this
      ensures Valid() && old(pos) <= pos
      ensures match ParseInside(old(Rest()), depth)
              case Err => r == Err
              case Ok((f, rest)) => r == Ok(f) && Rest() == rest
      decreases |bytes| - pos, 3
    {
      var c := Peek();
      if c == Some(AMP) || c == Some(PIPE) {
        var _ := Bump();
        var items := ParseListAt(depth + 1);
        r := if items.Err? then Err else if c == Some(AMP) then Ok(And(items.value)) else Ok(Or(items.value));
      } else if c == Some(BANG) {
        var _ := Bump();
        var inner := ParseFilterAt(depth + 1);
        r := if inner.Err? then Err else Ok(Not(inner.value));
      } else {
        r := ParseSimpleAt();
      }
    }

    method ParseListAt(depth: nat) returns (r: Result<seq<Filter>>)
      requires Valid()
      modifies this
      ensures Valid() && old(pos) <= pos
      ensures match ParseList(old(Rest()), depth)
              case Err => r == Err
              case Ok((items, rest)) => r == Ok(items) && Rest() == rest
      decreases |bytes| - pos, 2
    {
      var out: seq<Filter> := [];
      ghost var goal := ParseItems(Rest(), depth);
      AfterNone(goal);
      while pos < |bytes| && bytes[pos] == LPAREN
        invariant Valid() && old(pos) <= pos && goal == After(out, ParseItems(Rest(), depth))
        decreases |bytes| - pos
      {
        var f := ParseFilterAt(depth);
        if f.Err? {
          return Err;
        }
        AfterOne(out, f.value, ParseItems(Rest(), depth));
        out := out + [f.value];
      }
      assert out + [] == out;
      r := if out == [] then Err else Ok(out);
    }

    /** Scans to the first `x` or `y`; unsupported operators on the way are errors when `strict`. */
    method Scan(x: Byte, y: Byte, strict: bool) returns (ok: bool)
      requires Valid()
      modifies this
      ensures Valid() && old(pos) <= pos
      ensures var n := Until(old(Rest()), x, y);
              && ok == (strict ==> Supported(old(Rest())[..n]))
              && (ok ==> pos == old(pos) + n)
    {
      ghost var start, rest := pos, Rest();
      while pos < |bytes|
        invariant Valid() && start <= pos
        invariant pos - start <= Until(rest, x, y)
        invariant strict ==> Supported(rest[..pos - start])
      {
        var c := bytes[pos];
        UntilAt(rest, x, y, pos - start);
        if c == x || c == y {
          break;
        }
        if strict && Unsupported(c) {
          return false;
        }
        pos := pos + 1;
      }
      return true;
    }

    method ParseSimpleAt() returns (r: Result<Filter>)
      requires Valid()
      modifies this
      ensures Valid() && old(pos) <= pos
      ensures match ParseSimple(old(Rest()))
              case Err => r == Err
              case Ok((f, rest)) => r == Ok(f) && Rest() == rest
    {
      var start := pos;
      var ok := Scan(EQUALS, RPAREN, true);
      if !ok {
        return Err;
      }
      var desc := bytes[start..pos];
      Carved(bytes, start, pos - start);
      ok := ExpectByte(EQUALS);
      if !ok {
        return Err;
      }
      Carved(bytes, start, pos - start);
      ghost var from := pos;
      var value := ReadValue();
      Carved(bytes, from, |value|);
      r := Leaf(desc, value);
    }

    /** An assertion value, up to the closing parenthesis. */
    method ReadValue() returns (value: Text)
      requires Valid()
      modifies this
      ensures Valid() && old(pos) <= pos
      ensures value == old(Rest())[..Until(old(Rest()), RPAREN, RPAREN)] && pos == old(pos) + |value|
    {
      var start := pos;
      var _ := Scan(RPAREN, RPAREN, false);
      value := bytes[start..pos];
      assert value == old(Rest())[..pos - start];
    }

    static method Leaf(desc: Text, value: Text) returns (r: Result<Filter>)
      ensures r == LeafFilter(desc, value)
    {
      if COLON in desc {
        r := ExtensibleLeafOf(desc, value);
      } else if value == [STAR] {
        r := Ok(Present(desc));
      } else if STAR in value {
        var segments := Split(value, STAR);
        r := if |segments| >= 2 then Ok(Present(desc)) else Err;
        if r.Ok? {
          r := SubstringLeafOf(desc, segments);
        }
      } else {
        r := Ok(Equality(desc, value));
      }
    }

    /** The first piece is the initial segment, the last the final one; empty pieces contribute nothing. */
    static method SubstringLeafOf(attr: Text, segments: seq<Text>) returns (r: Result<Filter>)
      requires |segments| >= 2
      ensures r == SubstringFilter(attr, segments)
    {
      var last := |segments| - 1;
      var initial: Option<Text>, any: seq<Text>, final_: Option<Text> := None, [], None;
      for i := 0 to |segments|
        invariant forall j :: 0 <= j < i ==> NoControl(segments[j])
        invariant i == 0 ==> any == [] && initial == None
        invariant i > 0 ==>
                  initial == NonEmpty(segments[0]) && any == DropEmpty(segments[1..if i <= last then i else last])
        invariant final_ == if i <= last then None else NonEmpty(segments[last])
      {
        var seg := segments[i];
        if seg != [] && exists k :: 0 <= k < |seg| && Control(seg[k]) {
          return Err;
        }
        if 0 < i < last {
          assert segments[1..i + 1] == segments[1..i] + [seg];
          DropEmptyLast(segments[1..i], seg);
        }
        if seg != [] {
          if i == 0 {
            initial := Some(seg);
          } else if i == last {
            final_ := Some(seg);
          } else {
            any := any + [seg];
          }
        }
      }
      return Ok(Substrings(attr, initial, any, final_));
    }

    static method ExtensibleLeafOf(desc: Text, value: Text) returns (r: Result<Filter>)
      ensures r == ExtensibleFilter(desc, value)
    {
      var tokens := Split(desc, COLON);
      var n := |tokens| - 1;
      if tokens[n] != [] || n == 0 {
        return Err;
      }
      var attrType := NonEmpty(tokens[0]);
      var marks := tokens[1..n];
      var dn, rule: Option<Text> := false, None;
      ghost var rest := marks;
      for i := 0 to |marks|
        invariant rest == marks[i..] && Marks(marks, false, None) == Marks(rest, dn, rule)
      {
        var tok := marks[i];
        if tok == DN {
          if dn {
            return Err;
          }
          dn := true;
        } else if tok == [] || rule.Some? {
          return Err;
        } else {
          rule := Some(tok);
        }
        rest := rest[1..];
      }
      if attrType.None? && rule.None? {
        return Err;
      }
      var clean := RejectControl(value);
      if clean && attrType.Some? {
        clean := RejectControl(attrType.value);
      }
      if clean && rule.Some? {
        clean := RejectControl(rule.value);
      }
      r := if clean then Ok(Extensible(rule, attrType, value, dn)) else Err;
    }

    static method RejectControl(t: Text) returns (ok: bool)
      ensures ok == NoControl(t)
    {
      for i := 0 to |t|
        invariant forall j :: 0 <= j < i ==> !Control(t[j])
      {
        if Control(t[i]) {
          return false;
        }
      }
      return true;
    }
  }

  lemma Carved(s: Text, start: nat, n: nat)
    requires start + n <= |s|
    ensures s[start..][..n] == s[start..start + n] && s[start..][n..] == s[start + n..]
  {
  }

  /** Parses a whole text. */
  method ParseText(s: Text) returns (r: Result<Filter>)
    ensures r == ParseFilter(s)
    ensures r.Ok? ==> WellFormed(r.value) && Depth(r.value) <= MAX_FILTER_DEPTH
  {
    var p := new FilterParser(s);
    assert s[0..] == s;
    r := p.ParseFilterAt(0);
    if r.Ok? {
      ParsedIsWellFormed(s, 0);
      if p.pos != |p.bytes| {
        r := Err;
      }
    }
  }

  /** Items already parsed, then the rest of the list. */
  function After(done: seq<Filter>, more: Result<(seq<Filter>, Text)>): Result<(seq<Filter>, Text)>
  {
    match more case Err => Err case Ok((items, rest)) => Ok((done + items, rest))
  }

  lemma AfterNone(more: Result<(seq<Filter>, Text)>)
    ensures After([], more) == more
  {
    if more.Ok? {
      assert [] + more.value.0 == more.value.0;
    }
  }

  lemma AfterOne(done: seq<Filter>, f: Filter, more: Result<(seq<Filter>, Text)>)
    ensures After(done + [f], more) == After(done, After([f], more))
  {
    if more.Ok? {
      assert done + [f] + more.value.0 == done + ([f] + more.value.0);
    }
  }

  lemma {:induction false} DropEmptyLast(ts: seq<Text>, t: Text)
    ensures DropEmpty(ts + [t]) == DropEmpty(ts) + (if t == [] then [] else [t])
  {
    if ts != [] {
      DropEmptyLast(ts[1..], t);
      assert (ts + [t])[1..] == ts[1..] + [t];
    }
  }
}

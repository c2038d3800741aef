/**
 * What the encoder writes, in the representations of section 6 of RFC 7541: an index whenever an equal entry exists,
 * and otherwise a literal with incremental indexing, its name by index whenever one exists and its texts in the
 * shorter form.
 */
module HpackChoice {
  import opened Common
  import opened Fields
  import opened HpackTable
  import opened Hpack
  import opened Spellings
  import opened HpackPeer
  import PI = PrefixInteger
  import H = Huffman

  /** The lowest index, counted from 1, of an entry equal to `f`. */
  ghost predicate FirstEqual(all: seq<Field>, f: Field, i: nat)
  {
    1 <= i <= |all| && all[i - 1] == f && f !in all[..i - 1]
  }

  /** The lowest index of an entry with this name. */
  ghost predicate FirstNamed(all: seq<Field>, name: seq<Byte>, i: nat)
  {
    1 <= i <= |all| && all[i - 1].name == name && Unnamed(all[..i - 1], name)
  }

  ghost predicate Unnamed(all: seq<Field>, name: seq<Byte>) { forall f :: f in all ==> f.name != name }

  /** Huffman coding is used exactly when it saves bytes. */
  ghost predicate Shortest(c: Tables, s: Spelling, text: seq<Byte>)
    requires |c.huffman| == 257
  {
    s.text == text && (s.huffman <==> |H.EncodeString(c.huffman, text)| < |text|)
  }

  /** The representation the encoder should choose for `f`. */
  ghost predicate Best(c: Tables, all: seq<Field>, f: Field, rep: Rep)
    requires |c.huffman| == 257
  {
    match rep
    case Indexed(i) => FirstEqual(all, f, i)
    case Literal(mode, name, value) =>
      && mode == Incremental && f !in all && Shortest(c, value, f.value)
      && (match name
          case ByIndex(i) => FirstNamed(all, f.name, i)
          case Spelled(s) => Unnamed(all, f.name) && Shortest(c, s, f.name))
    case SizeUpdate(_) => false
  }

  lemma {:induction false} FoundFirst(fs: seq<Field>, f: Field, i: nat)
    requires i <= |fs| && f !in fs[..i]
    ensures var r := FindField(fs, f, i);
            if r.Some? then r.value < |fs| && fs[r.value] == f && f !in fs[..r.value] else f !in fs
    decreases |fs| - i
  {
    if i < |fs| && fs[i] != f {
      assert fs[..i + 1] == fs[..i] + [fs[i]];
      FoundFirst(fs, f, i + 1);
    } else if i == |fs| {
      assert fs[..i] == fs;
    }
  }

  lemma {:induction false} NamedFirst(fs: seq<Field>, name: seq<Byte>, i: nat)
    requires i <= |fs| && Unnamed(fs[..i], name)
    ensures var r := FindName(fs, name, i);
            if r.Some? then r.value < |fs| && fs[r.value].name == name && Unnamed(fs[..r.value], name)
            else Unnamed(fs, name)
    decreases |fs| - i
  {
    if i < |fs| && fs[i].name != name {
      assert fs[..i + 1] == fs[..i] + [fs[i]];
      NamedFirst(fs, name, i + 1);
    } else if i == |fs| {
      assert fs[..i] == fs;
    }
  }

  /** The combined index is the lowest: the static table comes first. */
  lemma EqualIndex(c: Tables, es: seq<Field>, f: Field)
    ensures var all := c.fields + es;
            match FullIndex(c, es, f) case Some(i) => FirstEqual(all, f, i) case None => f !in all
  {
    FoundFirst(c.fields, f, 0);
    FoundFirst(es, f, 0);
    var r := FindField(es, f, 0);
    if FindField(c.fields, f, 0).None? && r.Some? {
      assert (c.fields + es)[..|c.fields| + r.value] == c.fields + es[..r.value];
    } else if FindField(c.fields, f, 0).Some? {
      var i := FindField(c.fields, f, 0).value;
      assert (c.fields + es)[..i] == c.fields[..i];
    }
  }

  lemma NamedIndex(c: Tables, es: seq<Field>, name: seq<Byte>)
    ensures var all := c.fields + es;
            match NameIndex(c, es, name) case Some(i) => FirstNamed(all, name, i) case None => Unnamed(all, name)
  {
    NamedFirst(c.fields, name, 0);
    NamedFirst(es, name, 0);
    var r := FindName(es, name, 0);
    if FindName(c.fields, name, 0).None? && r.Some? {
      assert (c.fields + es)[..|c.fields| + r.value] == c.fields + es[..r.value];
    } else if FindName(c.fields, name, 0).Some? {
      var i := FindName(c.fields, name, 0).value;
      assert (c.fields + es)[..i] == c.fields[..i];
    }
  }

  lemma LiteralIsShortest(c: Tables, text: seq<Byte>) returns (s: Spelling)
    requires |c.huffman| == 257
    ensures Shortest(c, s, text) && EncodeLiteral(c, text) == EncodeSpelled(c, s)
  {
    s := Spelling(text, |H.EncodeString(c.huffman, text)| < |text|);
  }

  /** Every line the encoder writes is its best representation, and exactly the literals are inserted. */
  lemma LineIsBest(c: Tables, e: EncoderState, f: Field) returns (rep: Rep)
    requires |c.huffman| == 257
    ensures Best(c, c.fields + e.entries, f, rep)
    ensures EncodeLine(c, e, f)
            == (Write(c, rep), if rep.Indexed? then e else e.(entries := Insert(e.entries, e.cap, f)))
  {
    EqualIndex(c, e.entries, f);
    NamedIndex(c, e.entries, f.name);
    match FullIndex(c, e.entries, f)
    case Some(i) => rep := Indexed(i);
    case None =>
      var value := LiteralIsShortest(c, f.value);
      match NameIndex(c, e.entries, f.name)
      case Some(i) =>
        rep := Literal(Incremental, ByIndex(i), value);
        assert LiteralHead(Incremental, i) + [] == LiteralHead(Incremental, i);
      case None =>
        var name := LiteralIsShortest(c, f.name);
        rep := Literal(Incremental, Spelled(name), value);
        assert LiteralHead(Incremental, 0) == [0x40];
  }

  /** A pending size update comes first, once. */
  lemma HeaderIsBest(c: Tables, e: EncoderState, f: Field) returns (rep: Rep)
    requires |c.huffman| == 257
    ensures Best(c, c.fields + e.entries, f, rep) && EncodeHeader(c, e, f).1.pending.None?
    ensures EncodeHeader(c, e, f).0
            == (if e.pending.Some? then Write(c, SizeUpdate(e.pending.value)) else []) + Write(c, rep)
  {
    rep := LineIsBest(c, e.(pending := None), f);
  }
}

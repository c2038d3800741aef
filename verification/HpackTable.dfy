/** The HPACK dynamic table (section 4 of RFC 7541): newest entry first, evicted from the back. */
module HpackTable {
  import opened Fields

  /** Drops the oldest entries until the rest fits `budget`. */
  function Evict(es: seq<Field>, budget: int): (r: seq<Field>)
    ensures r <= es
    ensures r == [] || ListSize(r) <= budget
    decreases |es|
  {
    if es == [] || ListSize(es) <= budget then es else Evict(es[..|es| - 1], budget)
  }

  /** Section 4.4: an entry larger than the whole table empties it. */
  function Insert(es: seq<Field>, cap: nat, f: Field): (r: seq<Field>)
    ensures r == [] || (r[0] == f && EntrySize(f) <= cap)
  {
    if EntrySize(f) > cap then [] else [f] + Evict(es, cap - EntrySize(f))
  }

  lemma {:induction false} SizeFront(f: Field, es: seq<Field>)
    ensures ListSize([f] + es) == EntrySize(f) + ListSize(es)
  {
    if es == [] {
      assert [f] + es == [f];
      assert [f][..0] == [];
    } else {
      SizeFront(f, es[..|es| - 1]);
      assert ([f] + es)[..|es|] == [f] + es[..|es| - 1];
    }
  }

  lemma {:induction false} SizePrefix(p: seq<Field>, es: seq<Field>)
    requires p <= es
    ensures ListSize(p) + 32 * (|es| - |p|) <= ListSize(es)
    decreases |es|
  {
    if |p| < |es| {
      SizePrefix(p, es[..|es| - 1]);
    } else {
      assert p == es;
    }
  }

  lemma InsertFits(es: seq<Field>, cap: nat, f: Field)
    ensures ListSize(Insert(es, cap, f)) <= cap
  {
    if EntrySize(f) <= cap {
      SizeFront(f, Evict(es, cap - EntrySize(f)));
    }
  }

  /** Eviction keeps the longest prefix that fits. */
  lemma {:induction false} EvictKeeps(p: seq<Field>, es: seq<Field>, budget: int)
    requires p <= es && ListSize(p) <= budget
    ensures p <= Evict(es, budget)
    decreases |es|
  {
    if es != [] && ListSize(es) > budget {
      assert |p| == |es| ==> p == es;
      EvictKeeps(p, es[..|es| - 1], budget);
    }
  }

  lemma {:induction false} EvictMonotone(p: seq<Field>, es: seq<Field>, budget: int)
    requires p <= es
    ensures Evict(p, budget) <= Evict(es, budget)
    decreases |es|
  {
    if |p| == |es| {
      assert p == es;
    } else if ListSize(es) > budget {
      EvictMonotone(p, es[..|es| - 1], budget);
    }
  }

  lemma InsertMonotone(p: seq<Field>, es: seq<Field>, cap: nat, f: Field)
    requires p <= es
    ensures Insert(p, cap, f) <= Insert(es, cap, f)
  {
    if EntrySize(f) <= cap {
      EvictMonotone(p, es, cap - EntrySize(f));
    }
  }
}

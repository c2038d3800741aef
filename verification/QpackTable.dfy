/**
 * The QPACK dynamic table (section 3.2 of RFC 9204) refines an unbounded log of insertions: its live entries are the
 * log's newest ones, and an absolute index means the same entry for as long as that entry lives.
 */
module QpackTable {
  import opened Common
  import opened Fields

  const MAX_DYNAMIC_CAPACITY: nat := 4096

  /** Live entries oldest first; `entries[0]` has absolute index `dropped`. */
  datatype TableState = Table(entries: seq<Field>, capacity: nat, insertCount: nat, dropped: nat)

  /** Drops the oldest entries until the rest fits `budget`. */
  function EvictFront(es: seq<Field>, budget: int): (r: seq<Field>)
    ensures |r| <= |es|
    decreases |es|
  {
    if es == [] || ListSize(es) <= budget then es else EvictFront(es[1..], budget)
  }

  function EvictToFit(t: TableState, incoming: nat): TableState
  {
    var es := EvictFront(t.entries, t.capacity - incoming);
    t.(entries := es, dropped := t.dropped + (|t.entries| - |es|))
  }

  function SetCapacity(t: TableState, cap: nat): Result<TableState>
  {
    if cap > MAX_DYNAMIC_CAPACITY then Err else Ok(EvictToFit(t.(capacity := cap), 0))
  }

  function Insert(t: TableState, f: Field): Result<TableState>
  {
    if EntrySize(f) > t.capacity then Err
    else
      var t1 := EvictToFit(t, EntrySize(f));
      Ok(t1.(entries := t1.entries + [f], insertCount := t.insertCount + 1))
  }

  function GetAbsolute(t: TableState, abs: nat): Result<Field>
  {
    if abs < t.dropped || abs >= t.insertCount then Err
    else if abs - t.dropped >= |t.entries| then Err
    else Ok(t.entries[abs - t.dropped])
  }

  const EMPTY_TABLE: TableState := Table([], 0, 0, 0)

  // ----- refinement of the log -----

  ghost predicate Refines(t: TableState, log: seq<Field>)
  {
    && t.insertCount == |log| && t.dropped <= |log| && t.entries == log[t.dropped..]
    && ListSize(t.entries) <= t.capacity <= MAX_DYNAMIC_CAPACITY
  }

  lemma EmptyRefines()
    ensures Refines(EMPTY_TABLE, [])
  {
  }

  lemma DropTwice(es: seq<Field>, i: nat, j: nat)
    requires i + j <= |es|
    ensures es[i..][j..] == es[i + j..]
  {
  }

  /** Where eviction cuts: what is after the cut fits, and one more entry would not. */
  lemma {:induction false} EvictCut(es: seq<Field>, budget: nat) returns (k: nat)
    ensures k <= |es| && EvictFront(es, budget) == es[k..] && ListSize(es[k..]) <= budget
    ensures k > 0 ==> ListSize(es[k - 1..]) > budget
    decreases |es|
  {
    if es == [] || ListSize(es) <= budget {
      k := 0;
      assert es[0..] == es;
    } else {
      var j := EvictCut(es[1..], budget);
      CutLater(es, budget, j);
      k := j + 1;
    }
  }

  lemma CutLater(es: seq<Field>, budget: nat, j: nat)
    requires es != [] && ListSize(es) > budget && j < |es|
    requires j > 0 ==> ListSize(es[1..][j - 1..]) > budget
    ensures es[1..][j..] == es[j + 1..] && ListSize(es[j..]) > budget
  {
    if j > 0 {
      DropTwice(es, 1, j - 1);
    } else {
      assert es[0..] == es;
    }
  }

  /** Eviction keeps the longest run of newest entries that fits. */
  lemma EvictKeepsNewest(es: seq<Field>, budget: nat)
    ensures var k := |es| - |EvictFront(es, budget)|;
            && EvictFront(es, budget) == es[k..] && ListSize(es[k..]) <= budget
            && (k > 0 ==> ListSize(es[k - 1..]) > budget)
  {
    var k := EvictCut(es, budget);
    assert k == |es| - |es[k..]|;
  }

  /** Eviction seen from the log. */
  lemma EvictFromLog(log: seq<Field>, from: nat, es: seq<Field>, budget: nat, to: nat)
    requires from <= |log| && es == log[from..] && to == from + |es| - |EvictFront(es, budget)|
    ensures from <= to <= |log| && EvictFront(es, budget) == log[to..] && ListSize(log[to..]) <= budget
            && NeededRoom(log, from, to, budget)
  {
    var k := EvictCut(es, budget);
    assert |es[k..]| == |es| - k;
    DropTwice(log, from, k);
    if k > 0 {
      DropTwice(log, from, k - 1);
    }
  }

  lemma EvictRefines(t: TableState, log: seq<Field>, incoming: nat)
    requires t.dropped <= |log| && t.entries == log[t.dropped..] && incoming <= t.capacity
    ensures var r := EvictToFit(t, incoming);
            && t.dropped <= r.dropped <= |log| && r.entries == log[r.dropped..]
            && ListSize(r.entries) + incoming <= t.capacity
            && NeededRoom(log, t.dropped, r.dropped, t.capacity - incoming)
  {
    EvictFromLog(log, t.dropped, t.entries, t.capacity - incoming, EvictToFit(t, incoming).dropped);
  }

  /** Had one entry fewer been dropped, the rest would not have fitted `budget`. */
  ghost predicate NeededRoom(log: seq<Field>, from: nat, to: nat, budget: int)
    requires to <= |log|
  {
    to > from ==> ListSize(log[to - 1..]) > budget
  }

  /** Changing the capacity forgets entries from the old end only, and no more than it must. */
  lemma SetCapacityRefines(t: TableState, log: seq<Field>, cap: nat)
    requires Refines(t, log)
    ensures SetCapacity(t, cap).Ok? <==> cap <= 4096
    ensures SetCapacity(t, cap).Ok? ==> var r := SetCapacity(t, cap).value;
              Refines(r, log) && r.capacity == cap && t.dropped <= r.dropped
                && NeededRoom(log, t.dropped, r.dropped, cap)
  {
    if cap <= MAX_DYNAMIC_CAPACITY {
      EvictRefines(t.(capacity := cap), log, 0);
    }
  }

  /** An insertion extends the log, unless the entry alone is larger than the table. */
  lemma InsertRefines(t: TableState, log: seq<Field>, f: Field)
    requires Refines(t, log)
    ensures Insert(t, f).Ok? <==> EntrySize(f) <= t.capacity
    ensures Insert(t, f).Ok? ==> var r := Insert(t, f).value;
              Refines(r, log + [f]) && t.dropped <= r.dropped <= |log|
                && NeededRoom(log, t.dropped, r.dropped, t.capacity - EntrySize(f))
  {
    if EntrySize(f) <= t.capacity {
      EvictRefines(t, log, EntrySize(f));
      Appended(log, EvictToFit(t, EntrySize(f)).dropped, f);
    }
  }

  lemma Appended(log: seq<Field>, from: nat, f: Field)
    requires from <= |log|
    ensures (log + [f])[from..] == log[from..] + [f]
            && ListSize(log[from..] + [f]) == ListSize(log[from..]) + EntrySize(f)
  {
    assert (log[from..] + [f])[..|log| - from] == log[from..];
  }

  /** An absolute index names the log's entry exactly as long as that entry lives. */
  lemma AbsoluteIndexIsStable(t: TableState, log: seq<Field>, abs: nat)
    requires Refines(t, log)
    ensures GetAbsolute(t, abs) == if t.dropped <= abs < |log| then Ok(log[abs]) else Err
  {
  }

  /** A table never holds more than 128 entries. */
  lemma {:induction false} EntriesBound(es: seq<Field>)
    ensures 32 * |es| <= ListSize(es)
  {
    if es != [] {
      EntriesBound(es[..|es| - 1]);
    }
  }

  // ----- whole instruction streams -----

  datatype Op = Capacity(cap: nat) | Add(field: Field)

  /** Applies operations until one fails. */
  function ApplyOps(t: TableState, ops: seq<Op>): Result<TableState>
    decreases |ops|
  {
    if ops == [] then Ok(t)
    else
      match (match ops[0] case Capacity(cap) => SetCapacity(t, cap) case Add(f) => Insert(t, f))
      case Err => Err
      case Ok(t1) => ApplyOps(t1, ops[1..])
  }

  /** The fields the operations inserted, in order. */
  function Inserted(ops: seq<Op>): seq<Field>
  {
    if ops == [] then []
    else Inserted(ops[..|ops| - 1]) + (match ops[|ops| - 1] case Add(f) => [f] case Capacity(_) => [])
  }

  lemma {:induction false} InsertedFront(op: Op, ops: seq<Op>)
    ensures Inserted([op] + ops) == Inserted([op]) + Inserted(ops)
  {
    if ops == [] {
      assert [op] + ops == [op];
    } else {
      InsertedFront(op, ops[..|ops| - 1]);
      assert ([op] + ops)[..|ops|] == [op] + ops[..|ops| - 1];
      Regroup(Inserted([op]), Inserted(ops[..|ops| - 1]), match ops[|ops| - 1] case Add(f) => [f]
              case Capacity(_) => []);
    }
  }

  lemma Regroup(a: seq<Field>, b: seq<Field>, c: seq<Field>)
    ensures (a + b) + c == a + (b + c)
  {
  }

  lemma {:induction false} OpsRefineFrom(t: TableState, log: seq<Field>, ops: seq<Op>)
    requires Refines(t, log) && ApplyOps(t, ops).Ok?
    ensures Refines(ApplyOps(t, ops).value, log + Inserted(ops))
    decreases |ops|
  {
    if ops == [] {
      assert log + Inserted(ops) == log;
    } else {
      assert ops == [ops[0]] + ops[1..];
      InsertedFront(ops[0], ops[1..]);
      assert Inserted([ops[0]]) == match ops[0] case Add(f) => [f] case Capacity(_) => [];
      match ops[0]
      case Capacity(cap) =>
        SetCapacityRefines(t, log, cap);
        OpsRefineFrom(SetCapacity(t, cap).value, log, ops[1..]);
        Regroup(log, [], Inserted(ops[1..]));
        assert log + [] == log;
      case Add(f) =>
        InsertRefines(t, log, f);
        OpsRefineFrom(Insert(t, f).value, log + [f], ops[1..]);
        Regroup(log, [f], Inserted(ops[1..]));
    }
  }

  /**
   * After any successful sequence of operations on a fresh table, an absolute index below the insert count reads the
   * entry that was inserted at that position, exactly when that entry has not been dropped.
   */
  lemma TableRefinesLog(ops: seq<Op>, abs: nat)
    requires ApplyOps(EMPTY_TABLE, ops).Ok?
    ensures var t, log := ApplyOps(EMPTY_TABLE, ops).value, Inserted(ops);
            && t.insertCount == |log| && ListSize(t.entries) <= t.capacity <= 4096 && |t.entries| <= 128
            && t.dropped + |t.entries| == |log|
            && GetAbsolute(t, abs) == if t.dropped <= abs < |log| then Ok(log[abs]) else Err
  {
    EmptyRefines();
    OpsRefineFrom(EMPTY_TABLE, [], ops);
    assert [] + Inserted(ops) == Inserted(ops);
    var t := ApplyOps(EMPTY_TABLE, ops).value;
    AbsoluteIndexIsStable(t, Inserted(ops), abs);
    EntriesBound(t.entries);
  }

  // ----- the mutable table -----

  /** `log` is the history of insertions that the fields refine. */
  class DynamicTable {
    var entries: seq<Field>
    var size: nat
    var capacity: nat
    var insertCount: nat
    var dropped: nat
    ghost var log: seq<Field>

    ghost predicate Valid()
      reads this
    {
      Refines(State(), log) && size == ListSize(entries)
    }

    function State(): TableState
      reads this
    {
      Table(entries, capacity, insertCount, dropped)
    }

    constructor ()
      ensures Valid() && State() == EMPTY_TABLE && log == []
    {
      entries, size, capacity, insertCount, dropped, log := [], 0, 0, 0, 0, [];
    }

    method EvictOldest(incoming: nat)
      requires size == ListSize(entries)
      modifies this`entries, this`size, this`dropped
      ensures State() == EvictToFit(old(State()), incoming) && size == ListSize(entries)
    {
      ghost var goal := EvictToFit(State(), incoming);
      while size + incoming > capacity && entries != []
        invariant size == ListSize(entries) && goal == EvictToFit(State(), incoming)
        decreases |entries|
      {
        PopFront(entries);
        size := size - EntrySize(entries[0]);
        entries := entries[1..];
        dropped := dropped + 1;
      }
    }

    method SetTableCapacity(cap: nat) returns (ok: bool)
      requires Valid()
      modifies this
      ensures Valid() && log == old(log)
      ensures match SetCapacity(old(State()), cap)
              case Err => !ok && State() == old(State())
              case Ok(t) => ok && State() == t
    {
      if cap > MAX_DYNAMIC_CAPACITY {
        return false;
      }
      SetCapacityRefines(State(), log, cap);
      capacity := cap;
      EvictOldest(0);
      return true;
    }

    method InsertEntry(f: Field) returns (ok: bool)
      requires Valid()
      modifies this
      ensures Valid()
      ensures match Insert(old(State()), f)
              case Err => !ok && State() == old(State()) && log == old(log)
              case Ok(t) => ok && State() == t && log == old(log) + [f]
    {
      InsertRefines(State(), log, f);
      if EntrySize(f) > capacity {
        return false;
      }
      EvictOldest(EntrySize(f));
      assert (entries + [f])[..|entries|] == entries;
      size := size + EntrySize(f);
      entries := entries + [f];
      insertCount := insertCount + 1;
      log := log + [f];
      return true;
    }

    method Get(abs: nat) returns (r: Result<Field>)
      requires Valid()
      ensures r == GetAbsolute(State(), abs)
      ensures r == if dropped <= abs < insertCount then Ok(log[abs]) else Err
    {
      AbsoluteIndexIsStable(State(), log, abs);
      if abs < dropped || abs >= insertCount {
        return Err;
      }
      var pos := abs - dropped;
      if pos >= |entries| {
        return Err;
      }
      return Ok(entries[pos]);
    }
  }

  lemma {:induction false} PopFront(es: seq<Field>)
    requires es != []
    ensures ListSize(es) == EntrySize(es[0]) + ListSize(es[1..])
  {
    if |es| > 1 {
      PopFront(es[..|es| - 1]);
      assert es[..|es| - 1][1..] == es[1..][..|es| - 2];
    } else {
      assert es[..0] == [];
    }
  }
}

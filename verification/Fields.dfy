/** Header fields, their sizes, and linear searches over them. */
module Fields {
  import opened Common

  /** Names and values are byte strings; where the client holds a `String` they are valid UTF-8. */
  datatype Field = Field(name: seq<Byte>, value: seq<Byte>)

  /** Section 4.1 of RFC 7541 and section 3.2.1 of RFC 9204. */
  function EntrySize(f: Field): nat { |f.name| + |f.value| + 32 }

  /** Cap on a decoded list, in entry sizes. */
  const MAX_DECODED_HEADER_LIST: nat := 262144

  function ListSize(fs: seq<Field>): nat
  {
    if fs == [] then 0 else ListSize(fs[..|fs| - 1]) + EntrySize(fs[|fs| - 1])
  }

  /** Position of the first field equal to `f`, from `i` on. */
  function FindField(fs: seq<Field>, f: Field, i: nat): (r: Option<nat>)
    requires i <= |fs|
    ensures r.Some? ==> i <= r.value < |fs| && fs[r.value] == f
    ensures r.None? ==> f !in fs[i..]
    decreases |fs| - i
  {
    if i == |fs| then None else if fs[i] == f then Some(i) else FindField(fs, f, i + 1)
  }

  /** Position of the first field with this name, from `i` on. */
  function FindName(fs: seq<Field>, name: seq<Byte>, i: nat): (r: Option<nat>)
    requires i <= |fs|
    ensures r.Some? ==> i <= r.value < |fs| && fs[r.value].name == name
    ensures r.None? ==> forall j :: i <= j < |fs| ==> fs[j].name != name
    decreases |fs| - i
  {
    if i == |fs| then None else if fs[i].name == name then Some(i) else FindName(fs, name, i + 1)
  }
}

/** A record's layout: its format identifier and its ordered fields
    (binmerge.cpp, FormatLayout), and the structure size derived from it. */
module Layouts {
  import opened Fields

  /** Values of `uint32_t`. */
  type Magic = x: nat | x < 0x1_0000_0000

  /** `fieldsCount` is the length of `fields`: the flexible array member holds
      exactly the fields the count describes. */
  datatype FormatLayout = FormatLayout(magic: Magic, fields: seq<FieldData>)

  /** A value-initialised `FormatLayout`: magic 0 and no fields. */
  const DefaultLayout: FormatLayout := FormatLayout(0, [])

  /** The mathematical sum of the declared sizes of `fields`. */
  function TotalSize(fields: seq<FieldData>): (total: nat)
    ensures forall i :: 0 <= i < |fields| ==> fields[i].size <= total
  {
    if fields == [] then 0 else fields[0].size + TotalSize(fields[1..])
  }

  /** The sum of no fields is 0. */
  lemma TotalSizeEmpty()
    ensures TotalSize([]) == 0
  {
  }

  /** Appending a field adds its size to the total. */
  lemma {:induction false} TotalSizeAppend(fields: seq<FieldData>, f: FieldData)
    ensures TotalSize(fields + [f]) == TotalSize(fields) + f.size
  {
    if fields == [] {
      assert fields + [f] == [f];
    } else {
      assert (fields + [f])[1..] == fields[1..] + [f];
      TotalSizeAppend(fields[1..], f);
    }
  }

  /** Reducing the running sum modulo 2^64 before adding to it does not change
      the reduced result. */
  lemma ModAddLeft(a: nat, s: nat)
    ensures (a % SIZE_T_MODULUS + s) % SIZE_T_MODULUS == (a + s) % SIZE_T_MODULUS
  {
    var q := a / SIZE_T_MODULUS;
    assert a == q * SIZE_T_MODULUS + a % SIZE_T_MODULUS;
  }

  /** FormatLayout::GetStructureSize: the declared sizes of all fields, accumulated
      in a `size_t`, so the sum wraps around at 2^64. */
  method GetStructureSize(layout: FormatLayout) returns (result: SizeT)
    ensures result == TotalSize(layout.fields) % SIZE_T_MODULUS
    ensures TotalSize(layout.fields) < SIZE_T_MODULUS ==> result == TotalSize(layout.fields)
  {
    result := 0;
    for i := 0 to |layout.fields|
      invariant result == TotalSize(layout.fields[..i]) % SIZE_T_MODULUS
    {
      assert layout.fields[..i + 1] == layout.fields[..i] + [layout.fields[i]];
      TotalSizeAppend(layout.fields[..i], layout.fields[i]);
      ModAddLeft(TotalSize(layout.fields[..i]), layout.fields[i].size);
      result := (result + layout.fields[i].size) % SIZE_T_MODULUS;
    }
    assert layout.fields[..|layout.fields|] == layout.fields;
  }
}

/** One field of a binary record: its declared size, its type tag, its byte buffer
    and its name, and the byte-wise equality test the merge rule is built on. */
module Fields {
  import opened FieldTypes

  /** Values of `size_t` on the 64-bit targets the source is written for. */
  const SIZE_T_MODULUS: nat := 0x1_0000_0000_0000_0000
  type SizeT = x: nat | x < SIZE_T_MODULUS

  /** `data` is the buffer `char* data` points to, taken by value; `name` is the
      contents of the `char name[40]` buffer up to its terminating NUL. */
  datatype FieldData = FieldData(size: SizeT, fieldType: FieldType, data: seq<bv8>, name: string)

  /** A zero-initialised `FieldData`: size 0, the first type tag, a null buffer
      and an empty name. */
  const EmptyField: FieldData := FieldData(0, Byte, [], "")

  /** The buffer holds at least `size` bytes, so that comparing `size` bytes of it
      stays inside it. */
  predicate Readable(f: FieldData)
  {
    f.size <= |f.data|
  }

  /** The field comparison of AtomicMergeModificationResult: equal sizes and equal
      first `size` bytes. Name and type tag take no part in it.

      The source hands the addresses of the two `data` pointer variables to its byte
      comparison, so it compares the pointers' own bytes rather than the buffers
      they point to.
      Its own comments and the merge rule it serves ask for the buffers' contents,
      and that is what is modelled here. */
  predicate Same(one: FieldData, two: FieldData)
    requires Readable(one) && Readable(two)
  {
    one.size == two.size && forall k :: 0 <= k < one.size ==> one.data[k] == two.data[k]
  }

  /** Same compares exactly the `size`-byte prefixes of the two buffers. */
  lemma SameIffPrefixesEqual(one: FieldData, two: FieldData)
    requires Readable(one) && Readable(two)
    ensures Same(one, two) <==> one.size == two.size && one.data[..one.size] == two.data[..two.size]
  {
    if one.size == two.size {
      if Same(one, two) {
        assert one.data[..one.size] == two.data[..two.size];
      } else if one.data[..one.size] == two.data[..two.size] {
        forall k | 0 <= k < one.size
          ensures one.data[k] == two.data[k]
        {
          assert one.data[k] == one.data[..one.size][k];
        }
      }
    }
  }

  /** Same is an equivalence relation on readable fields. */
  lemma SameIsEquivalence(a: FieldData, b: FieldData, c: FieldData)
    requires Readable(a) && Readable(b) && Readable(c)
    ensures Same(a, a)
    ensures Same(a, b) ==> Same(b, a)
    ensures Same(a, b) && Same(b, c) ==> Same(a, c)
  {
  }

  /** Fields of different declared sizes are never equal. */
  lemma DifferentSizesDiffer(one: FieldData, two: FieldData)
    requires Readable(one) && Readable(two)
    requires one.size != two.size
    ensures !Same(one, two)
  {
  }

  /** Renaming a field, retagging it, or changing its buffer past `size` bytes
      leaves it equal to what it was. */
  lemma SameIgnoresNameTypeAndTail(f: FieldData, name: string, t: FieldType, tail: seq<bv8>)
    requires Readable(f)
    ensures Readable(f.(name := name, fieldType := t, data := f.data[..f.size] + tail))
    ensures Same(f, f.(name := name, fieldType := t, data := f.data[..f.size] + tail))
  {
    var g := f.(name := name, fieldType := t, data := f.data[..f.size] + tail);
    forall k | 0 <= k < f.size
      ensures f.data[k] == g.data[k]
    {
      assert g.data[k] == f.data[..f.size][k];
    }
  }
}

/** The example record of the source's driver (binmerge.cpp, ExampleFileFormat and
    main) as three concrete layouts: fields x, pos, name and counter, with the sizes
    `sizeof` gives them (4, 12, 20 and 8 bytes), little-endian integers and IEEE-754
    single-precision components for pos. The type tags are the ones the schema's
    comments name. */
module ExampleFormat {
  import opened FieldTypes
  import opened Fields
  import opened AtomicMerge
  import opened Layouts
  import opened LayoutMerge

  const ExampleMagic: Magic := 0xDEAD_BEEF

  /** x = 10 */
  const X: FieldData := FieldData(4, Integer, [10, 0, 0, 0], "x")

  /** pos = (1.0, 2.0, 3.0) */
  const Pos: FieldData := FieldData(12, Structure,
    [0x00, 0x00, 0x80, 0x3F, 0x00, 0x00, 0x00, 0x40, 0x00, 0x00, 0x40, 0x40], "pos")

  /** counter = 123 */
  const Counter: FieldData := FieldData(8, Long, [123, 0, 0, 0, 0, 0, 0, 0], "counter")

  /** name = "test", NUL-padded to 20 bytes */
  const BaseName: FieldData := FieldData(20, CString,
    [0x74, 0x65, 0x73, 0x74, 0, 0, 0, 0, 0, 0, 0, 0, 0, 0, 0, 0, 0, 0, 0, 0], "name")

  /** name = "testlocal" */
  const LocalName: FieldData := FieldData(20, CString,
    [0x74, 0x65, 0x73, 0x74, 0x6C, 0x6F, 0x63, 0x61, 0x6C, 0, 0, 0, 0, 0, 0, 0, 0, 0, 0, 0], "name")

  /** name = "testremote" */
  const RemoteName: FieldData := FieldData(20, CString,
    [0x74, 0x65, 0x73, 0x74, 0x72, 0x65, 0x6D, 0x6F, 0x74, 0x65, 0, 0, 0, 0, 0, 0, 0, 0, 0, 0], "name")

  const Base: FormatLayout := FormatLayout(ExampleMagic, [X, Pos, BaseName, Counter])
  const Local: FormatLayout := FormatLayout(ExampleMagic, [X, Pos, LocalName, Counter])
  const Remote: FormatLayout := FormatLayout(ExampleMagic, [X, Pos, RemoteName, Counter])

  /** The example record occupies 44 bytes. */
  lemma ExampleStructureSize()
    ensures TotalSize(Base.fields) == 44
  {
    assert [Counter][1..] == [];
    assert TotalSize([Counter]) == 8;
    assert [BaseName, Counter][1..] == [Counter];
    assert TotalSize([BaseName, Counter]) == 28;
    assert [Pos, BaseName, Counter][1..] == [BaseName, Counter];
    assert TotalSize([Pos, BaseName, Counter]) == 40;
    assert Base.fields[1..] == [Pos, BaseName, Counter];
  }

  lemma ExampleAligned()
    ensures Aligned(Base, Local, Remote)
  {
  }

  /** The three names are pairwise different within their 20 bytes. */
  lemma ExampleNamesDiffer()
    ensures PairwiseDistinct(BaseName, LocalName, RemoteName)
  {
    assert !Same(BaseName, LocalName) by { assert LocalName.data[4] != BaseName.data[4]; }
    assert !Same(BaseName, RemoteName) by { assert RemoteName.data[4] != BaseName.data[4]; }
    assert !Same(LocalName, RemoteName) by { assert LocalName.data[4] != RemoteName.data[4]; }
  }

  /** Of the four field indices, only the third (name) conflicts. */
  lemma ExampleConflictPoints()
    ensures Aligned(Base, Local, Remote)
    ensures !ConflictAt(Base, Local, Remote, 0) && !ConflictAt(Base, Local, Remote, 1)
    ensures ConflictAt(Base, Local, Remote, 2) && !ConflictAt(Base, Local, Remote, 3)
  {
    ExampleAligned();
    ExampleNamesDiffer();
    SameIsEquivalence(X, X, X);
    SameIsEquivalence(Pos, Pos, Pos);
    SameIsEquivalence(Counter, Counter, Counter);
  }

  /** Only `name` is reported. */
  lemma ExampleConflicts()
    ensures ConflictsBefore(Base, Local, Remote, 4) == ["name"]
  {
    ExampleConflictPoints();
    assert ConflictsBefore(Base, Local, Remote, 1) == [];
    assert ConflictsBefore(Base, Local, Remote, 2) == [];
    assert ConflictsBefore(Base, Local, Remote, 3) == ["name"];
  }

  /** Both sides renamed the record differently: the name slot stays empty. */
  lemma ExampleNameSlot()
    ensures ResolvedField(BaseName, LocalName, RemoteName) == EmptyField
  {
    ExampleNamesDiffer();
  }

  /** Nobody touched x, pos or counter: each merges to its common value. */
  lemma ExampleUnchangedSlots()
    ensures ResolvedField(X, X, X) == X
    ensures ResolvedField(Pos, Pos, Pos) == Pos
    ensures ResolvedField(Counter, Counter, Counter) == Counter
  {
    SameIsEquivalence(X, X, X);
    SameIsEquivalence(Pos, Pos, Pos);
    SameIsEquivalence(Counter, Counter, Counter);
  }

  /** x, pos and counter merge to their common value; name keeps its
      zero-initialised slot. */
  lemma ExampleMergedFields()
    ensures Aligned(Base, Local, Remote)
    ensures MergedFields(Base, Local, Remote) == [X, Pos, EmptyField, Counter]
  {
    ExampleAligned();
    ExampleNameSlot();
    ExampleUnchangedSlots();
    var fs := MergedFields(Base, Local, Remote);
    assert fs[0] == X;
    assert fs[1] == Pos;
    assert fs[2] == EmptyField;
    assert fs[3] == Counter;
  }

  /** The driver's merge: both sides renamed the record differently, so `name`
      conflicts and is left zero-initialised, while x, pos and counter merge to the
      base values. */
  lemma ExampleNameConflict()
    ensures MergeLayouts(Base, Local, Remote) ==
      MergeReport(FormatLayout(ExampleMagic, [X, Pos, EmptyField, Counter]), ["name"])
  {
    ExampleMergedFields();
    ExampleConflicts();
  }

  /** Only local renamed the record: the merge takes local's name and keeps the
      rest, without conflicts. */
  lemma ExampleLocalRename()
    ensures MergeLayouts(Base, Local, Base) == MergeReport(Local, [])
  {
    MergeLocalChangesOnly(Base, Local);
  }
}

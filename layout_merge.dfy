/** The merge of three layouts of one record (binmerge.cpp, MergeFormats): the magic
    check, then the positional field-by-field merge that the source's comments give
    as its first case. */
module LayoutMerge {
  import opened Wrappers
  import opened Fields
  import opened AtomicMerge
  import opened Layouts

  /** The merged layout, and the names of the base fields that conflicted, in field
      order. */
  datatype MergeReport = MergeReport(merged: FormatLayout, conflicts: seq<string>)

  /** Local and remote carry the base's format identifier. */
  predicate MagicsMatch(base: FormatLayout, local: FormatLayout, remote: FormatLayout)
  {
    local.magic == base.magic && remote.magic == base.magic
  }

  predicate AllReadable(fields: seq<FieldData>)
  {
    forall i :: 0 <= i < |fields| ==> Readable(fields[i])
  }

  /** The three layouts line up field by field, the case the positional merge
      handles, and every buffer holds its declared size. */
  predicate Aligned(base: FormatLayout, local: FormatLayout, remote: FormatLayout)
  {
    |local.fields| == |base.fields| && |remote.fields| == |base.fields| &&
    AllReadable(base.fields) && AllReadable(local.fields) && AllReadable(remote.fields)
  }

  /** The i-th fields of the three layouts conflict. */
  predicate ConflictAt(base: FormatLayout, local: FormatLayout, remote: FormatLayout, i: nat)
    requires Aligned(base, local, remote) && i < |base.fields|
  {
    PairwiseDistinct(base.fields[i], local.fields[i], remote.fields[i])
  }

  /** What the merged slot holds after the atomic merge: the merged value, or, on a
      conflict, the zero-initialised field it started as. */
  function ResolvedField(base: FieldData, local: FieldData, remote: FieldData): FieldData
    requires Readable(base) && Readable(local) && Readable(remote)
  {
    match MergeField(base, local, remote)
    case Some(m) => m
    case None => EmptyField
  }

  /** The names of the conflicting base fields among the first k, in order. */
  function ConflictsBefore(base: FormatLayout, local: FormatLayout, remote: FormatLayout, k: nat): seq<string>
    requires Aligned(base, local, remote) && k <= |base.fields|
  {
    if k == 0 then []
    else ConflictsBefore(base, local, remote, k - 1) +
         (if ConflictAt(base, local, remote, k - 1) then [base.fields[k - 1].name] else [])
  }

  /** The fields of the merged layout, one slot per base field index. */
  function MergedFields(base: FormatLayout, local: FormatLayout, remote: FormatLayout): seq<FieldData>
    requires Aligned(base, local, remote)
  {
    seq(|base.fields|, i requires 0 <= i < |base.fields| =>
      ResolvedField(base.fields[i], local.fields[i], remote.fields[i]))
  }

  /** The outcome of the merge as a value: the default layout on a magic mismatch,
      otherwise the base's magic over the positionally merged fields, with every
      conflicting field reported by its base name. */
  function MergeLayouts(base: FormatLayout, local: FormatLayout, remote: FormatLayout): MergeReport
    requires MagicsMatch(base, local, remote) ==> Aligned(base, local, remote)
  {
    if !MagicsMatch(base, local, remote) then MergeReport(DefaultLayout, [])
    else MergeReport(FormatLayout(base.magic, MergedFields(base, local, remote)),
                     ConflictsBefore(base, local, remote, |base.fields|))
  }

  /** MergeFormats, with its loop body completed as its comments describe: each base
      field index is visited once, its three fields are merged atomically into the
      zero-initialised slot of the result, and a conflict is reported with the base
      field's name before the loop goes on. */
  method MergeFormats(base: FormatLayout, local: FormatLayout, remote: FormatLayout)
    returns (merged: FormatLayout, conflicts: seq<string>)
    requires MagicsMatch(base, local, remote) ==> Aligned(base, local, remote)
    ensures MergeReport(merged, conflicts) == MergeLayouts(base, local, remote)
    ensures !MagicsMatch(base, local, remote) ==> merged == DefaultLayout && conflicts == []
    ensures MagicsMatch(base, local, remote) ==>
      merged.magic == base.magic && |merged.fields| == |base.fields| &&
      (conflicts == [] <==> forall i :: 0 <= i < |base.fields| ==> !ConflictAt(base, local, remote, i))
  {
    if local.magic != base.magic || remote.magic != base.magic {
      return DefaultLayout, [];
    }
    var n := |base.fields|;
    var slots := seq(n, _ => EmptyField);
    conflicts := [];
    for i := 0 to n
      invariant |slots| == n
      invariant forall k :: 0 <= k < i ==>
        slots[k] == ResolvedField(base.fields[k], local.fields[k], remote.fields[k])
      invariant forall k :: i <= k < n ==> slots[k] == EmptyField
      invariant conflicts == ConflictsBefore(base, local, remote, i)
    {
      var ok, m := AtomicMergeModificationResult(base.fields[i], local.fields[i], remote.fields[i], slots[i]);
      slots := slots[i := m];
      if !ok {
        conflicts := conflicts + [base.fields[i].name];
      }
    }
    assert slots == MergedFields(base, local, remote);
    merged := FormatLayout(base.magic, slots);
    ConflictsBeforeEmptyIff(base, local, remote, n);
  }

  /** MergeFormats as the source has it: the loop reads the three i-th fields and
      writes nothing, and the value-initialised result is returned whatever the
      magics. */
  method MergeFormatsAsWritten(base: FormatLayout, local: FormatLayout, remote: FormatLayout)
    returns (merged: FormatLayout)
    requires MagicsMatch(base, local, remote) ==>
      |local.fields| >= |base.fields| && |remote.fields| >= |base.fields|
    ensures merged == DefaultLayout
  {
    if local.magic != base.magic || remote.magic != base.magic {
      return DefaultLayout;
    }
    merged := DefaultLayout;
    for i := 0 to |base.fields| {
      var baseField := base.fields[i];
      var localField := local.fields[i];
      var remoteField := remote.fields[i];
    }
  }

  /** The conflict list is empty exactly when no field conflicts. */
  lemma {:induction false} ConflictsBeforeEmptyIff(base: FormatLayout, local: FormatLayout, remote: FormatLayout, k: nat)
    requires Aligned(base, local, remote) && k <= |base.fields|
    ensures ConflictsBefore(base, local, remote, k) == [] <==>
      forall i :: 0 <= i < k ==> !ConflictAt(base, local, remote, i)
  {
    if k > 0 {
      ConflictsBeforeEmptyIff(base, local, remote, k - 1);
    }
  }

  /** Every conflicting field is reported by its base name. */
  lemma {:induction false} ConflictsBeforeComplete(base: FormatLayout, local: FormatLayout, remote: FormatLayout, k: nat)
    requires Aligned(base, local, remote) && k <= |base.fields|
    ensures forall i :: 0 <= i < k && ConflictAt(base, local, remote, i) ==>
      base.fields[i].name in ConflictsBefore(base, local, remote, k)
  {
    if k > 0 {
      ConflictsBeforeComplete(base, local, remote, k - 1);
    }
  }

  /** Every reported name is the base name of a conflicting field. */
  lemma {:induction false} ConflictsBeforeSound(base: FormatLayout, local: FormatLayout, remote: FormatLayout, k: nat)
    requires Aligned(base, local, remote) && k <= |base.fields|
    ensures forall name :: name in ConflictsBefore(base, local, remote, k) ==>
      exists i :: 0 <= i < k && ConflictAt(base, local, remote, i) && base.fields[i].name == name
  {
    if k > 0 {
      ConflictsBeforeSound(base, local, remote, k - 1);
      forall name | name in ConflictsBefore(base, local, remote, k)
        ensures exists i :: 0 <= i < k && ConflictAt(base, local, remote, i) && base.fields[i].name == name
      {
        if name !in ConflictsBefore(base, local, remote, k - 1) {
          assert ConflictAt(base, local, remote, k - 1) && base.fields[k - 1].name == name;
        }
      }
    }
  }

  lemma ConflictsBeforeFacts(base: FormatLayout, local: FormatLayout, remote: FormatLayout, k: nat)
    requires Aligned(base, local, remote) && k <= |base.fields|
    ensures ConflictsBefore(base, local, remote, k) == [] <==>
      forall i :: 0 <= i < k ==> !ConflictAt(base, local, remote, i)
    ensures forall i :: 0 <= i < k && ConflictAt(base, local, remote, i) ==>
      base.fields[i].name in ConflictsBefore(base, local, remote, k)
  {
    ConflictsBeforeEmptyIff(base, local, remote, k);
    ConflictsBeforeComplete(base, local, remote, k);
  }

  /** A magic mismatch yields the default layout and no conflicts, whatever the
      fields hold. */
  lemma MergeMagicMismatch(base: FormatLayout, local: FormatLayout, remote: FormatLayout)
    requires !MagicsMatch(base, local, remote)
    ensures MergeLayouts(base, local, remote) == MergeReport(DefaultLayout, [])
  {
  }

  /** Merging a layout with itself gives it back, without conflicts. */
  lemma MergeIdentity(layout: FormatLayout)
    requires AllReadable(layout.fields)
    ensures MergeLayouts(layout, layout, layout) == MergeReport(layout, [])
  {
    ConflictsBeforeFacts(layout, layout, layout, |layout.fields|);
    assert MergedFields(layout, layout, layout) == layout.fields;
  }

  /** Only local changed: the merge is local, without conflicts. */
  lemma MergeLocalChangesOnly(base: FormatLayout, changed: FormatLayout)
    requires changed.magic == base.magic && |changed.fields| == |base.fields|
    requires AllReadable(base.fields) && AllReadable(changed.fields)
    ensures MergeLayouts(base, changed, base) == MergeReport(changed, [])
  {
    ConflictsBeforeFacts(base, changed, base, |base.fields|);
    forall i | 0 <= i < |base.fields|
      ensures ResolvedField(base.fields[i], changed.fields[i], base.fields[i]) == changed.fields[i]
    {
      MergeFieldOneSideChanged(base.fields[i], changed.fields[i], base.fields[i]);
    }
    assert MergedFields(base, changed, base) == changed.fields;
  }

  /** Only remote changed: the merge succeeds without conflicts and every merged
      field equals remote's under Same. A field that remote left equal to base
      keeps base's (local's) exact value; any other takes remote's. */
  lemma MergeRemoteChangesOnly(base: FormatLayout, changed: FormatLayout)
    requires changed.magic == base.magic && |changed.fields| == |base.fields|
    requires AllReadable(base.fields) && AllReadable(changed.fields)
    ensures MergeLayouts(base, base, changed).conflicts == []
    ensures MergeLayouts(base, base, changed).merged.magic == changed.magic
    ensures |MergeLayouts(base, base, changed).merged.fields| == |changed.fields|
    ensures forall i :: 0 <= i < |changed.fields| ==>
      var f := MergeLayouts(base, base, changed).merged.fields[i];
      Readable(f) && Same(f, changed.fields[i]) &&
      f == (if Same(base.fields[i], changed.fields[i]) then base.fields[i] else changed.fields[i])
  {
    ConflictsBeforeFacts(base, base, changed, |base.fields|);
    forall i | 0 <= i < |base.fields|
      ensures Same(base.fields[i], changed.fields[i]) ==> Same(changed.fields[i], base.fields[i])
    {
      SameIsEquivalence(base.fields[i], changed.fields[i], base.fields[i]);
      SameIsEquivalence(changed.fields[i], changed.fields[i], changed.fields[i]);
    }
  }

  /** A field on which base, local and remote all differ is reported under its base
      name, and its merged slot keeps its zero-initialised value. */
  lemma MergeReportsConflict(base: FormatLayout, local: FormatLayout, remote: FormatLayout, i: nat)
    requires MagicsMatch(base, local, remote) && Aligned(base, local, remote)
    requires i < |base.fields| && ConflictAt(base, local, remote, i)
    ensures base.fields[i].name in MergeLayouts(base, local, remote).conflicts
    ensures MergeLayouts(base, local, remote).merged.fields[i] == EmptyField
  {
    ConflictsBeforeFacts(base, local, remote, |base.fields|);
  }

  /** The merge reports no conflict exactly when every field merges, and then every
      merged field is the atomic merge of the three fields at its index. */
  lemma MergeCleanIff(base: FormatLayout, local: FormatLayout, remote: FormatLayout)
    requires MagicsMatch(base, local, remote) && Aligned(base, local, remote)
    ensures MergeLayouts(base, local, remote).conflicts == [] <==>
      forall i :: 0 <= i < |base.fields| ==> MergeField(base.fields[i], local.fields[i], remote.fields[i]).Some?
    ensures MergeLayouts(base, local, remote).conflicts == [] ==>
      forall i :: 0 <= i < |base.fields| ==>
        Some(MergeLayouts(base, local, remote).merged.fields[i]) ==
        MergeField(base.fields[i], local.fields[i], remote.fields[i])
  {
    ConflictsBeforeFacts(base, local, remote, |base.fields|);
  }

  lemma {:induction false} ConflictsBeforeSymmetric(base: FormatLayout, local: FormatLayout, remote: FormatLayout, k: nat)
    requires Aligned(base, local, remote) && k <= |base.fields|
    ensures ConflictsBefore(base, local, remote, k) == ConflictsBefore(base, remote, local, k)
  {
    if k > 0 {
      ConflictsBeforeSymmetric(base, local, remote, k - 1);
      MergeFieldSymmetric(base.fields[k - 1], local.fields[k - 1], remote.fields[k - 1]);
    }
  }

  /** Exchanging local and remote gives the same conflicts, the same magic, and
      merged fields that are pairwise equal under Same. */
  lemma MergeSymmetric(base: FormatLayout, local: FormatLayout, remote: FormatLayout)
    requires MagicsMatch(base, local, remote) ==> Aligned(base, local, remote)
    ensures MergeLayouts(base, local, remote).conflicts == MergeLayouts(base, remote, local).conflicts
    ensures MergeLayouts(base, local, remote).merged.magic == MergeLayouts(base, remote, local).merged.magic
    ensures |MergeLayouts(base, local, remote).merged.fields| == |MergeLayouts(base, remote, local).merged.fields|
    ensures forall i :: 0 <= i < |MergeLayouts(base, local, remote).merged.fields| ==>
      var f, g := MergeLayouts(base, local, remote).merged.fields[i], MergeLayouts(base, remote, local).merged.fields[i];
      Readable(f) && Readable(g) && Same(f, g)
  {
    if MagicsMatch(base, local, remote) {
      ConflictsBeforeSymmetric(base, local, remote, |base.fields|);
      forall i | 0 <= i < |base.fields|
        ensures MergeField(base.fields[i], local.fields[i], remote.fields[i]).Some? ==
                MergeField(base.fields[i], remote.fields[i], local.fields[i]).Some?
        ensures MergeField(base.fields[i], local.fields[i], remote.fields[i]).Some? ==>
                Same(MergeField(base.fields[i], local.fields[i], remote.fields[i]).value,
                     MergeField(base.fields[i], remote.fields[i], local.fields[i]).value)
      {
        MergeFieldSymmetric(base.fields[i], local.fields[i], remote.fields[i]);
      }
    }
  }

  /** The source as written loses the layout the positional merge produces: merging
      any layout with a non-zero magic with itself yields magic 0. */
  lemma AsWrittenLosesIdentity(layout: FormatLayout)
    requires AllReadable(layout.fields) && layout.magic != 0
    ensures MergeLayouts(layout, layout, layout).merged == layout
    ensures MergeLayouts(layout, layout, layout).merged != DefaultLayout
  {
    MergeIdentity(layout);
  }
}

/** The three-way merge of a single field (binmerge.cpp, AtomicMergeModificationResult):
    the diff3 resolution rule applied at field granularity. */
module AtomicMerge {
  import opened Wrappers
  import opened Fields

  /** Base, local and remote have all three made different values of the field. */
  predicate PairwiseDistinct(base: FieldData, local: FieldData, remote: FieldData)
    requires Readable(base) && Readable(local) && Readable(remote)
  {
    !Same(base, local) && !Same(base, remote) && !Same(local, remote)
  }

  /** The diff3 rule as a decision list: a change made on both sides alike is taken;
      otherwise the side that changed wins over the one that did not; otherwise
      there is a conflict and no value. */
  function MergeField(base: FieldData, local: FieldData, remote: FieldData): (r: Option<FieldData>)
    requires Readable(base) && Readable(local) && Readable(remote)
    ensures r.None? <==> PairwiseDistinct(base, local, remote)
    ensures r.Some? ==> r.value == local || r.value == remote
  {
    if Same(local, remote) then Some(local)
    else if Same(base, local) then Some(remote)
    else if Same(base, remote) then Some(local)
    else None
  }

  /** The merge as the source writes it: a run of independent `if`s, each of which
      may overwrite `merged`. `prior` is what the out-parameter held on entry; it is
      what `merged` holds afterwards when the fields conflict. */
  method AtomicMergeModificationResult(base: FieldData, local: FieldData, remote: FieldData, prior: FieldData)
    returns (ok: bool, merged: FieldData)
    requires Readable(base) && Readable(local) && Readable(remote)
    ensures ok <==> !PairwiseDistinct(base, local, remote)
    ensures ok ==> Some(merged) == MergeField(base, local, remote)
    ensures !ok ==> merged == prior
  {
    SameIsEquivalence(base, local, remote);
    SameIsEquivalence(local, base, remote);
    SameIsEquivalence(base, remote, local);
    merged := prior;
    var baseToLocal := Same(base, local);
    var baseToRemote := Same(base, remote);
    if baseToLocal && baseToRemote {
      merged := base;
    }
    var localToRemote := Same(local, remote);
    if localToRemote {
      merged := local;
    }
    if baseToLocal && !baseToRemote {
      merged := remote;
    }
    if !baseToLocal && baseToRemote {
      merged := local;
    }
    if !baseToLocal && !baseToRemote && !localToRemote {
      return false, merged;
    }
    return true, merged;
  }

  /** Nobody changed the field: the merge succeeds with local's value, which equals
      base. (Under the sequential overwrites, the final write is `merged = local`.) */
  lemma MergeFieldUnchanged(base: FieldData, local: FieldData, remote: FieldData)
    requires Readable(base) && Readable(local) && Readable(remote)
    requires Same(base, local) && Same(base, remote)
    ensures MergeField(base, local, remote) == Some(local)
    ensures Same(MergeField(base, local, remote).value, base)
  {
    SameIsEquivalence(local, base, remote);
  }

  /** Both sides made the same change: it is taken, with local's value. */
  lemma MergeFieldSameChange(base: FieldData, local: FieldData, remote: FieldData)
    requires Readable(base) && Readable(local) && Readable(remote)
    requires Same(local, remote)
    ensures MergeField(base, local, remote) == Some(local)
  {
  }

  /** Exactly one side changed the field: that side's value is taken. */
  lemma MergeFieldOneSideChanged(base: FieldData, local: FieldData, remote: FieldData)
    requires Readable(base) && Readable(local) && Readable(remote)
    ensures Same(base, local) && !Same(base, remote) ==> MergeField(base, local, remote) == Some(remote)
    ensures Same(base, remote) && !Same(base, local) ==> MergeField(base, local, remote) == Some(local)
  {
    SameIsEquivalence(base, local, remote);
    SameIsEquivalence(base, remote, local);
  }

  /** Exchanging local and remote changes neither whether the merge succeeds nor,
      up to Same, its value. */
  lemma MergeFieldSymmetric(base: FieldData, local: FieldData, remote: FieldData)
    requires Readable(base) && Readable(local) && Readable(remote)
    ensures MergeField(base, local, remote).Some? == MergeField(base, remote, local).Some?
    ensures MergeField(base, local, remote).Some? ==>
      Same(MergeField(base, local, remote).value, MergeField(base, remote, local).value)
  {
    SameIsEquivalence(base, local, remote);
    SameIsEquivalence(local, remote, base);
    SameIsEquivalence(remote, local, base);
    SameIsEquivalence(local, local, local);
  }
}

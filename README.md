# binmerge: a verified model of the field-level three-way merge

binmerge merges binary records the way diff3 merges text. A record's shape is a
layout: a format identifier ("magic") and an ordered list of fields. Each field has
a declared size, a type tag, a byte buffer and a name. Given a common ancestor
("base") and two descendants ("local" and "remote"), the merge engine produces a
merged layout or reports conflicting fields.

This project models the merge engine of `binmerge.cpp` in Dafny:

- `FieldTypes`: the type tag enumeration of `type_enumeration.h`, carried along
  uninterpreted.
- `Fields`: `FieldData` as a value and the field comparison `COMPARE` as the
  predicate `Same`. Two fields are equal when their sizes match and their first
  `size` bytes match. Name and type tag take no part in the comparison.
- `AtomicMerge`: the diff3 rule for one field. `MergeField` is the rule as a decision
  list. `AtomicMergeModificationResult` is the source's run of independent `if`s
  that overwrite the out-parameter `merged`, proved to agree with `MergeField`.
  When the fields conflict, it leaves `merged` as it was.
- `Layouts`: `FormatLayout` as a value, and `GetStructureSize`, the loop that sums
  the field sizes in a `size_t`. The sum wraps at 2^64.
- `LayoutMerge`: `MergeFormats`. It checks that local and remote carry the base's
  magic, and returns the value-initialised layout (magic 0, no fields) if they do
  not. Otherwise it merges the fields positionally, as the comments in its loop
  describe. Each merged field is the atomic merge of the three fields at its index.
  A conflicting field keeps its zero-initialised slot and is reported by its base
  name. `MergeLayouts` states the same outcome as a function, and the lemmas about
  it cover identity, one-sided changes, conflict reporting and local/remote symmetry.
- `ExampleFormat`: the driver's example record (x, pos, name, counter) as
  concrete layouts. Local and remote rename the record differently, so only
  `name` conflicts.

Decisions where the source is ambiguous or departs from its own intent:

- `COMPARE` calls `memcmp(&one.data, &two.data, one.size)`, which compares the
  bytes of the two pointer variables rather than the buffers they point to. The
  comments around it and the merge rule it serves call for content comparison, and
  that is what `Same` models. The model therefore does not reproduce the
  pointer-byte comparison.
- The `if`s of `AtomicMergeModificationResult` run in sequence. When base, local
  and remote are all equal, `merged = base` is overwritten by `merged = local`. So
  the result is local's value, which equals base under `Same` but may differ from it
  in name, type tag or bytes past `size`. `MergeFieldUnchanged` states this.
- For the same reason, a merge where only remote changed keeps base's exact value
  for every field that remote left equal, and takes remote's value for the rest.
  A merge where only local changed returns local exactly (`MergeRemoteChangesOnly`,
  `MergeLocalChangesOnly`).
- Field equality is exactly what `COMPARE` tests: size and the first `size` bytes.
  A comparison that would also take in name and type tag is not modelled.
- The loop of `MergeFormats` is unfinished: its body only binds the three i-th
  fields, and the merge call is commented out. That call names `AtomicMergeResult`,
  a function that does not exist; the model reads it as
  `AtomicMergeModificationResult`. `MergeFormatsAsWritten` models the code as it
  stands (see Findings).
- `MergeFormats` goes further than the commented-out call. That call would write
  only `mergedResult.fields[i]`. Nothing in the source sets `mergedResult.magic` or
  `fieldsCount`, so even with the call restored the function would return magic 0
  and a field count of 0. `MergeFormats` gives the result the base's magic and one
  slot per base field. That is the model's reading of what a merge is for; the
  source's comments do not describe it.
- After a conflict, `MergeFormats` goes on to the next field and reports every
  conflicting field, in field order. This is a modelling choice. The commented-out
  code calls `__debugbreak()` on a conflict. With a debugger attached, execution
  can resume after it. Without one, the process ends at the first conflict.
- `fieldsCount` is modelled as the length of `fields`. The positional merge needs
  all three layouts to have the same number of fields and every buffer to hold at
  least its declared size, since the source reads that many bytes. This is required
  only when the magics match, because that is the only case in which the fields
  are read.

## Model

| member | source | states |
|---|---|---|
| `Fields.SameIffPrefixesEqual` | binmerge.cpp:91 | two fields compare equal exactly when their sizes are equal and the first `size` bytes of their buffers are equal |
| `Fields.SameIsEquivalence` | binmerge.cpp:91 | field comparison is reflexive, symmetric and transitive on readable fields |
| `Fields.DifferentSizesDiffer` | binmerge.cpp:91 | fields with different declared sizes never compare equal |
| `Fields.SameIgnoresNameTypeAndTail` | binmerge.cpp:91 | changing a field's name, its type tag or its buffer past `size` bytes leaves it equal to what it was |
| `AtomicMerge.MergeField` | binmerge.cpp:88-121 | the diff3 rule yields no value exactly when base, local and remote are pairwise unequal; any value it yields is local's or remote's |
| `AtomicMerge.AtomicMergeModificationResult` | binmerge.cpp:88-121 | the sequential `if`s return false exactly when the three fields are pairwise unequal; on true the final `merged` is the diff3 rule's value; on false `merged` is unchanged |
| `AtomicMerge.MergeFieldUnchanged` | binmerge.cpp:94-104 | when local and remote both equal base, the merge gives local's value, which equals base |
| `AtomicMerge.MergeFieldSameChange` | binmerge.cpp:99-104 | when local equals remote, the merge gives local's value |
| `AtomicMerge.MergeFieldOneSideChanged` | binmerge.cpp:105-114 | base equal to local but not remote gives remote; base equal to remote but not local gives local |
| `AtomicMerge.MergeFieldSymmetric` | binmerge.cpp:94-120 | exchanging local and remote changes neither whether the merge succeeds nor, up to field equality, its value |
| `Layouts.TotalSize` | binmerge.cpp:24-32 | the sum of the declared sizes is at least the size of every field |
| `Layouts.TotalSizeEmpty` | binmerge.cpp:26 | a layout with no fields has total size 0 |
| `Layouts.TotalSizeAppend` | binmerge.cpp:27-30 | appending a field increases the total size by that field's size |
| `Layouts.GetStructureSize` | binmerge.cpp:24-32 | the loop returns the sum of all field sizes modulo 2^64, and the exact sum when it is below 2^64 |
| `LayoutMerge.MergeFormats` | binmerge.cpp:123-161 | on a magic mismatch: the default layout and no conflicts; otherwise base's magic and one merged field per base field, each the atomic merge of the three fields at its index, and an empty conflict list exactly when no field conflicts |
| `LayoutMerge.MergeFormatsAsWritten` | binmerge.cpp:134-160 | the loop as written returns the value-initialised layout whatever the magics, the buffers and the field contents; it needs only that local and remote have at least as many fields as base when the magics match, the fields the loop binds |
| `LayoutMerge.ConflictsBeforeEmptyIff` | binmerge.cpp:136-158 | the conflict list is empty exactly when none of the visited fields conflicts |
| `LayoutMerge.ConflictsBeforeComplete` | binmerge.cpp:154-157 | every conflicting field is reported by its base name |
| `LayoutMerge.ConflictsBeforeSound` | binmerge.cpp:154-157 | every reported name is the base name of a conflicting field |
| `LayoutMerge.MergeMagicMismatch` | binmerge.cpp:126-133 | if local's or remote's magic differs from base's, the result is magic 0 with no fields and no conflicts, whatever the fields hold |
| `LayoutMerge.MergeIdentity` | binmerge.cpp:136-158 | merging a layout with itself returns it unchanged, without conflicts |
| `LayoutMerge.MergeLocalChangesOnly` | binmerge.cpp:136-158 | merging base, changed and base returns the changed layout exactly, without conflicts |
| `LayoutMerge.MergeRemoteChangesOnly` | binmerge.cpp:136-158 | merging base, base and changed succeeds without conflicts; each merged field equals the changed one, and is base's exact value where the two were equal |
| `LayoutMerge.MergeReportsConflict` | binmerge.cpp:149-158 | a field on which all three sides differ is reported under its base name, and its merged slot stays zero-initialised |
| `LayoutMerge.MergeCleanIff` | binmerge.cpp:136-158 | the conflict list is empty exactly when every field merges, and then each merged field is the atomic merge of the three fields at its index |
| `LayoutMerge.ConflictsBeforeSymmetric` | binmerge.cpp:154-157 | exchanging local and remote leaves the conflict list unchanged |
| `LayoutMerge.MergeSymmetric` | binmerge.cpp:123-161 | exchanging local and remote gives the same conflicts and magic, and merged fields equal index by index |
| `LayoutMerge.AsWrittenLosesIdentity` | binmerge.cpp:134-160 | for a layout with non-zero magic merged with itself, the intended result is the layout itself, never the default layout the code returns |
| `ExampleFormat.ExampleStructureSize` | binmerge.cpp:57-84 | the example record's four fields occupy 44 bytes |
| `ExampleFormat.ExampleNameConflict` | binmerge.cpp:169-191 | merging the driver's base, local and remote reports only `name`, which stays zero-initialised, while x, pos and counter keep the base values |
| `ExampleFormat.ExampleLocalRename` | binmerge.cpp:169-182 | with remote left at base, the merge returns local, with its new name, and no conflicts |

## Left out

- `main` and `ExampleFileFormat::PrintMe`: the driver prints with `printf` and does
  not compile as written. Its data appears only as the concrete layouts of
  `ExampleFormat`.
- The static `ExampleFileFormatHardcodedMetadata` schema serves only as a source of
  sizes (4, 12, 20 and 8 bytes) for `ExampleFormat`. The fixture reads the type tags
  from the schema's comments, which the code leaves out.
- The `printf` diagnostic on a magic mismatch, the `printf` on a merge conflict and
  `__debugbreak`: these are I/O and debugger traps. Only the returned values are
  modelled, and a conflict becomes an entry in the returned list of names.
- The `NUM_TYPES` sentinel of the type enumeration: it counts the tags and is not
  itself a field type.
- Field addition, removal and reordering, and the recursive merge of `STRUCTURE`
  fields: these exist only as comments, with no code to model.
- The pointer-byte comparison inside `COMPARE`: the model compares buffer contents
  instead (see above).
- Raw pointer aliasing: `data` is a byte sequence and `name` a string, both held by
  value. `merged = base` is therefore a value copy, and the 40-byte bound on names
  is not enforced.
- `MergeFormats`: the source never sets the result's magic or field count, even
  with its commented-out merge call restored. The model sets them to the base's
  magic and the base's field count, which is added behaviour.
- `MergeFormats`: `__debugbreak()` ends the process at the first conflict unless a
  debugger is attached. The model instead continues and reports every conflict.
- `MergeFormats` writes past the flexible array member of a zero-initialised
  `FormatLayout`, which has no storage. The model gives the result one slot per
  base field and holds them as a sequence rather than raw memory.

## Findings

| source | as written | input that shows it | evidently intended | confidence | as-written member | corrected member |
|---|---|---|---|---|---|---|
| binmerge.cpp:134-160 | the loop body only binds the three i-th fields, and the call to the atomic merge is commented out, so `mergedResult` stays `{0}` and is returned even when the magics match | base = local = remote = the example layout with magic 0xDEADBEEF: the result has magic 0 and no fields | each field merged by `AtomicMergeModificationResult`, as the comments at binmerge.cpp:140-141 and the commented-out call at binmerge.cpp:154-158 describe, with conflicts reported by name. The commented-out call itself names the nonexistent `AtomicMergeResult` and never sets the result's magic or field count; the base's magic and one slot per base field in the corrected member are the model's reading, not something the comments state | high (reading of the code; not executed) | `LayoutMerge.MergeFormatsAsWritten` (with `LayoutMerge.AsWrittenLosesIdentity`) | `LayoutMerge.MergeFormats` |

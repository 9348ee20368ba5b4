# OVA export and feature authorization, modelled in Dafny

This project models two small pieces of Xen Orchestra.

**OVA packaging** (`packages/xo-vmdk-to-vhd/src/ova-generate.js`):

- `createDiskSection` turns the ordered disk list into three text fragments: file references, disk records and virtual hardware items.
- `createOvf` places those fragments into the fixed OVF envelope. This is the DMTF Open Virtualization Format descriptor.
- `writeOvaOn` writes the archive in this order:
  - the `<vmName>.ovf` entry;
  - then one `<disk name>.vmdk` entry per disk, measured first and then streamed block by block;
  - then it finalizes the archive.

**Feature authorization** (`packages/xo-server/src/xo-mixins/authorization.mjs`):

- the plan levels;
- the table of the minimum plan per feature code;
- the check that rejects a feature when the current plan is below that minimum.

Modules, one per concern:

- `Wrappers` (`wrappers.dfy`): `Option`, `Result` and `Outcome`. `Outcome` is success, or failure with an error.
- `Text` (`text.dfy`):
  - joining and splitting on a separator, and decimal rendering;
  - the occurrence predicates `Contains` and `Before`, which the layout lemmas are stated with;
  - the small XML builders `Attribute`, `Element` and `Field`.
- `Bytes` (`bytes.dfy`): bytes, UTF-8 encoding per section 3 of RFC 3629, and concatenation of data blocks.
- `OvfDescriptor` (`ovf_descriptor.dfy`):
  - the `Disk` object;
  - `createDiskSection` as a loop method, proved against the function `DiskSectionOf`;
  - `createOvf` as a pure function built from section templates.
- `TarPack` (`tar_pack.dfy`): the tar-stream pack as a class. Its state is the list of entries given to it: each entry's name, declared size, payload so far, and whether it was ended.
- `OvaWriter` (`ova_writer.dfy`):
  - `writeOvaOn`, `pushDisk` and `writeDisk` as methods on a `Pack` and the disks;
  - `WriteDisk` is proved against `AppendToLast`: the last entry grows by the concatenation of the iterator's blocks;
  - `PushDisk` is proved against `DiskStep`;
  - `WriteArchive` and `WriteOvaOn` are proved against `ExportSpec`, with `PushAll` as `WriteArchive`'s loop invariant;
  - lemmas state what a successful or failed export leaves in the archive.
- `Authorization` (`authorization.dfy`): the table, `#getMinPlan`, `#getCurrentPlan` and `checkFeatureAuthorization`, as pure functions with lemmas.

Parameters stand for what the model does not define:

- `Transcoder` stands for `computeVmdkLength` and `vhdToVMDKIterator`. They live in a file that is not part of this model.
  - Each is a function of the disk name and the bytes of the disk's stream.
  - The iterator's result is a `BlockRun`: the blocks it yields, then either its end or the error it throws.
- `acks(k)` stands for the completion callback of the archive entry at position `k`. Position 0 is the descriptor. The value is the error reported, or none.
- `Disk.GetStream` returns the disk's source image. Each call stands for a fresh stream over the same bytes.

Two behaviours of the code shape the model:

- `createOvf`'s counter (`ova-generate.js:77-78`) numbers only the VirtualSystem (`1`) and the OperatingSystemSection (`2`). The InstanceIDs of the fixed hardware items are literals; each disk item's InstanceID is its disk id `vmdisk{i+1}` (`ova-generate.js:54, 62`).
- `writeOvaOn` returns `pipe` without awaiting the sink (`ova-generate.js:45`), so `WriteOvaOn` ends at `finalize`.

Where a disk has no `fileName`, the file reference reads `ovf:href="undefined"`. This is what the JavaScript template literal does, and `Href` models it.

A feature code that names a nested table, such as `BACKUP`, passes the check whatever the plan. In JavaScript, comparing a number with an object is false, and `NonLeafCodesPass` states this for `BACKUP` and `EXPORT`.

## Model

| member | source | states |
|---|---|---|
| OvfDescriptor.Disk.GetStream | packages/xo-vmdk-to-vhd/src/ova-generate.js:27-29 | each call yields a stream over the same disk image, so measuring and streaming read the same bytes |
| OvfDescriptor.CreateDiskSection | packages/xo-vmdk-to-vhd/src/ova-generate.js:48-72 | the loop's result is `DiskSectionOf(disks)`: per disk, in input order, the file reference, disk record and hardware item numbered by its index, each list joined with newlines |
| OvfDescriptor.FileReferencesSnoc | packages/xo-vmdk-to-vhd/src/ova-generate.js:52-55 | the disk pushed at step i contributes exactly the file reference for index i, at the end |
| OvfDescriptor.DiskRecordsSnoc | packages/xo-vmdk-to-vhd/src/ova-generate.js:52-56 | the disk pushed at step i contributes exactly the disk record for index i, at the end |
| OvfDescriptor.DiskItemsSnoc | packages/xo-vmdk-to-vhd/src/ova-generate.js:52-66 | step i contributes exactly the hardware item for index i, at the end |
| OvfDescriptor.DiskSectionEmpty | packages/xo-vmdk-to-vhd/src/ova-generate.js:48-72 | zero disks give three empty fragments |
| OvfDescriptor.DiskSectionSnoc | packages/xo-vmdk-to-vhd/src/ova-generate.js:52-72 | appending a disk appends a newline and that disk's three pieces to the three fragments, so the fragments list the disks in input order |
| OvfDescriptor.FileReferenceOneLine | packages/xo-vmdk-to-vhd/src/ova-generate.js:55 | a file reference is a single line whenever the file name has no newline |
| OvfDescriptor.DiskRecordOneLine | packages/xo-vmdk-to-vhd/src/ova-generate.js:56 | a disk record is always a single line |
| OvfDescriptor.DiskSectionLines | packages/xo-vmdk-to-vhd/src/ova-generate.js:68-72 | splitting the file-reference and disk-record fragments on newlines gives back the per-disk pieces, one per disk, in order |
| OvfDescriptor.FileReferenceFields | packages/xo-vmdk-to-vhd/src/ova-generate.js:55 | the file reference of disk i carries `ovf:href` = the disk's `fileName` and `ovf:id` = `file{i+1}` |
| OvfDescriptor.DiskRecordFields | packages/xo-vmdk-to-vhd/src/ova-generate.js:54-56 | the disk record of disk i carries capacity = `capacityMB`, units `byte * 2^20`, diskId `vmdisk{i+1}` and fileRef `file{i+1}` |
| OvfDescriptor.DiskItemFields | packages/xo-vmdk-to-vhd/src/ova-generate.js:54-62 | the hardware item of disk i has AddressOnParent `i`, ElementName `Hard Disk {i+1}`, HostResource `ovf:/disk/vmdisk{i+1}` and InstanceID `vmdisk{i+1}` |
| OvfDescriptor.DiskItemAttachment | packages/xo-vmdk-to-vhd/src/ova-generate.js:63-64 | every disk's hardware item has Parent `4` and ResourceType `17` |
| OvfDescriptor.IdentifiersDistinct | packages/xo-vmdk-to-vhd/src/ova-generate.js:54-56 | disks at different indexes never share a file id or a disk id |
| OvfDescriptor.CreateOvf | packages/xo-vmdk-to-vhd/src/ova-generate.js:75-158 | the descriptor lists References, DiskSection, NetworkSection and the VirtualSystem tagged `ovf:id="1"` in that order, then the OperatingSystemSection tagged `ovf:id="2"`; Name holds `vmName` and Annotation `vmDescription`; the layout lemmas below, through `CreateOvfTemplate`, give the rest |
| OvfDescriptor.CreateOvfTemplate | packages/xo-vmdk-to-vhd/src/ova-generate.js:75-158 | `createOvf` is the envelope template filled with the disk section, the VM's name, description and memory size, VirtualSystem id `1` and OperatingSystemSection id `2`, whatever the disks |
| OvfDescriptor.EnvelopeSectionOrder | packages/xo-vmdk-to-vhd/src/ova-generate.js:85-98 | the sections appear in the order References, DiskSection, NetworkSection, VirtualSystem |
| OvfDescriptor.EnvelopeFragmentsPlaced | packages/xo-vmdk-to-vhd/src/ova-generate.js:85-91 | the file references lie between the References tags, and the disk records between the DiskSection tags |
| OvfDescriptor.HardwareSectionLayout | packages/xo-vmdk-to-vhd/src/ova-generate.js:104-152 | in the hardware section, VirtualSystemIdentifier is the VM's name; the memory item is named `{mem}MB of memory` with quantity `{mem}`; the disk items follow the video card and precede the Ethernet item |
| OvfDescriptor.VirtualSystemLayout | packages/xo-vmdk-to-vhd/src/ova-generate.js:98-157 | in the virtual system, Name is the VM's name and Annotation its description; the system's id tag precedes the OS section's; the hardware section is part of it |
| OvfDescriptor.EnvelopeIdentifiers | packages/xo-vmdk-to-vhd/src/ova-generate.js:98-101 | the VirtualSystem tag with the first id comes before the OperatingSystemSection tag with the second id |
| OvfDescriptor.EnvelopeSections | packages/xo-vmdk-to-vhd/src/ova-generate.js:98-157 | the virtual system and its hardware section are parts of the envelope |
| OvfDescriptor.EnvelopeNames | packages/xo-vmdk-to-vhd/src/ova-generate.js:100-155 | the envelope holds Name and VirtualSystemIdentifier = the VM's name, and Annotation = its description |
| OvfDescriptor.EnvelopeMemory | packages/xo-vmdk-to-vhd/src/ova-generate.js:120-127 | the envelope's memory item is named `{mem}MB of memory` and has quantity `{mem}` |
| OvfDescriptor.EnvelopeDiskItems | packages/xo-vmdk-to-vhd/src/ova-generate.js:135-151 | in the envelope, the disks' items follow the video card item and precede the Ethernet item |
| OvfDescriptor.EnvelopeDefaultMemory | packages/xo-vmdk-to-vhd/src/ova-generate.js:120-127 | with 64 MB the envelope declares a memory quantity of `64` |
| OvfDescriptor.CreateOvfDefaultMemory | packages/xo-vmdk-to-vhd/src/ova-generate.js:75 | `createOvf` called without a memory size fills the template with 64 |
| Bytes.Utf8Length | packages/xo-vmdk-to-vhd/src/ova-generate.js:17 | the UTF-8 encoding of a text takes between one and four bytes per character |
| Bytes.Utf8Append | packages/xo-vmdk-to-vhd/src/ova-generate.js:17 | the encoding of a concatenation is the concatenation of the encodings, so each character is encoded on its own by `EncodeChar` (RFC 3629, section 3) |
| Bytes.EncodeCharDecodes | packages/xo-vmdk-to-vhd/src/ova-generate.js:17 | the lead byte of a character's encoding announces the encoding's length, and its bytes carry the character's code point back |
| Bytes.DecodeUtf8 | packages/xo-vmdk-to-vhd/src/ova-generate.js:17 | decoding the `.ovf` entry's bytes gives back exactly the descriptor text |
| Bytes.Utf8Injective | packages/xo-vmdk-to-vhd/src/ova-generate.js:17 | different descriptor texts never give the same entry bytes |
| Bytes.FlattenLength | packages/xo-vmdk-to-vhd/src/ova-generate.js:19-23 | the bytes written block by block are as many as the block lengths add up to |
| TarPack.Pack.constructor | packages/xo-vmdk-to-vhd/src/ova-generate.js:15 | a new pack has no entries and is not finalized |
| TarPack.Pack.AddEntry | packages/xo-vmdk-to-vhd/src/ova-generate.js:17 | a buffer entry is appended closed, named as given, and sized by its content |
| TarPack.Pack.OpenEntry | packages/xo-vmdk-to-vhd/src/ova-generate.js:31 | a streamed entry is appended open, empty, with the declared size; it may only start when no entry is open |
| TarPack.Pack.Write | packages/xo-vmdk-to-vhd/src/ova-generate.js:21 | a block is appended to the open entry's payload; nothing else changes |
| TarPack.Pack.End | packages/xo-vmdk-to-vhd/src/ova-generate.js:37 | the open entry is closed; nothing else changes |
| TarPack.Pack.Finalize | packages/xo-vmdk-to-vhd/src/ova-generate.js:44 | the pack is finalized with its entries unchanged; this needs no open entry |
| OvaWriter.WriteDisk | packages/xo-vmdk-to-vhd/src/ova-generate.js:19-23 | every yielded block is appended to the open entry, in iterator order; the outcome is the iterator's end or its error |
| OvaWriter.PushDisk | packages/xo-vmdk-to-vhd/src/ova-generate.js:26-38 | the archive and outcome are `DiskStep`'s: a measuring or iterator error adds no entry; a block error leaves a partial open entry; otherwise a complete closed entry, whose callback decides; `fileSize` becomes the measured length once measured |
| OvaWriter.DiskOutcomePasses | packages/xo-vmdk-to-vhd/src/ova-generate.js:26-38 | `pushDisk` settles without error iff measuring, opening the iterator and every block succeed and the archive reports no error on the disk's entry |
| OvaWriter.DiskStepPasses | packages/xo-vmdk-to-vhd/src/ova-generate.js:26-38 | one `pushDisk` passes iff its disk succeeds, and then appends exactly that disk's complete entry |
| OvaWriter.WriteOvaOn | packages/xo-vmdk-to-vhd/src/ova-generate.js:13-46 | with a missing description read as `''` and missing disks as `[]`, the pack, its finalization and the outcome are `ExportSpec` of the UTF-8 `createOvf` text; each disk reached and measured has `fileSize` set, every other disk keeps its own |
| OvaWriter.WriteArchive | packages/xo-vmdk-to-vhd/src/ova-generate.js:15-45 | from the encoded descriptor on, the loop leaves exactly the archive, outcome and disk sizes `ExportSpec` describes |
| OvaWriter.FileSizeStep | packages/xo-vmdk-to-vhd/src/ova-generate.js:28 | pushing one disk changes the recorded size of that disk object only, and only when it was measured |
| OvaWriter.PushAllStops | packages/xo-vmdk-to-vhd/src/ova-generate.js:41-43 | once a `pushDisk` rejects, the later disks change nothing |
| OvaWriter.PushAllPasses | packages/xo-vmdk-to-vhd/src/ova-generate.js:41-43 | the disk loop succeeds iff every disk succeeds at its position; then it appends one complete entry per disk, in order, after the existing ones |
| OvaWriter.PushAllFails | packages/xo-vmdk-to-vhd/src/ova-generate.js:26-43 | when the disk loop fails, every disk before the last one reached succeeded and kept its complete entry, in order; that one failed, with its own error (`DiskOutcome`: the error of measuring, of opening the iterator, of a block, or the archive's report on its entry); it left what `pushDisk` adds for it (`DiskEntries`: nothing when measuring or opening the iterator failed, else its entry holding every block it read, still open after a block error); nothing follows and nothing is rolled back |
| OvaWriter.PushAllWellFormed | packages/xo-vmdk-to-vhd/src/ova-generate.js:26-44 | the disk loop leaves at most its last entry open, and none when it succeeds |
| OvaWriter.PushAllSizes | packages/xo-vmdk-to-vhd/src/ova-generate.js:27-36 | when each disk's blocks add up to its measured length, every closed entry holds exactly its declared size |
| OvaWriter.ExportSucceedsIff | packages/xo-vmdk-to-vhd/src/ova-generate.js:13-45 | the export resolves iff the descriptor entry's callback and every disk's measuring, iterating and callback succeed |
| OvaWriter.SuccessfulExportLayout | packages/xo-vmdk-to-vhd/src/ova-generate.js:17-44 | a successful export of N disks is N+1 entries: `{vmName}.ovf` with the descriptor bytes, then per disk in order `{disk.name}.vmdk` sized as measured, holding every block, closed; the archive is finalized |
| OvaWriter.FailureStopsExport | packages/xo-vmdk-to-vhd/src/ova-generate.js:17-43 | a failed export is not finalized and starts with the closed descriptor entry; it stopped at the descriptor iff no disk was reached, and then fails with the archive's report on that entry and holds nothing else; else it stopped at the last disk reached, after all earlier disks succeeded and kept their complete entries, fails with that disk's own error (`DiskOutcome`), and ends with what that disk left (`DiskEntries`); no later disk has an entry and nothing is rolled back |
| OvaWriter.ExportWellFormed | packages/xo-vmdk-to-vhd/src/ova-generate.js:15-44 | after any export at most the last entry is open, and the archive is finalized iff the export succeeded |
| OvaWriter.ExactSizesWhenConsistent | packages/xo-vmdk-to-vhd/src/ova-generate.js:27-36 | if the measured length of each disk equals the total length of its blocks, every closed entry's payload length equals its declared size |
| Authorization.PlanLevelsIncreasing | packages/xo-server/src/xo-mixins/authorization.mjs:8-20 | FREE=1 < STARTER=2 < ENTREPRISE=3 < PREMIUM=4 < OPEN=5, and `TRIAL_LEVELS` maps exactly these five names to them |
| Authorization.GetAppend | packages/xo-server/src/xo-mixins/authorization.mjs:44 | looking up the path `p + q` is looking up `p`, then `q` from what was found; nothing is found when `p` finds nothing |
| Authorization.SpelledBy | packages/xo-server/src/xo-mixins/authorization.mjs:44 | the pieces between the dots of a code are dot-free keys that spell it, and they are the only such keys |
| Authorization.GetMinPlan | packages/xo-server/src/xo-mixins/authorization.mjs:43-47 | for the dot-free keys that spell the code with dots: when the table holds a rule at those keys the result is that rule, otherwise an assertion error |
| Authorization.GetCurrentPlan | packages/xo-server/src/xo-mixins/authorization.mjs:49-50 | the current plan is STARTER |
| Authorization.CheckFeatureAuthorizationWith | packages/xo-server/src/xo-mixins/authorization.mjs:69-80 | for the dot-free keys that spell the code: nothing at those keys fails with an assertion error; plan p there rejects with `featureUnauthorized{featureCode, currentPlan, p}` iff currentPlan < p, and passes otherwise; a nested table there passes |
| Authorization.CheckFeatureAuthorization | packages/xo-server/src/xo-mixins/authorization.mjs:69-80 | the check runs with STARTER as the current plan |
| Authorization.MinPlanBackupDelta | packages/xo-server/src/xo-mixins/authorization.mjs:24 | `BACKUP.DELTA` needs STARTER |
| Authorization.MinPlanBackupDeltaReplication | packages/xo-server/src/xo-mixins/authorization.mjs:25 | `BACKUP.DELTA_REPLICATION` needs ENTREPRISE |
| Authorization.MinPlanBackupFull | packages/xo-server/src/xo-mixins/authorization.mjs:26 | `BACKUP.FULL` needs STARTER |
| Authorization.MinPlanBackupMetadata | packages/xo-server/src/xo-mixins/authorization.mjs:27 | `BACKUP.METADATA` needs ENTREPRISE |
| Authorization.MinPlanBackupWithRam | packages/xo-server/src/xo-mixins/authorization.mjs:28 | `BACKUP.WITH_RAM` needs ENTREPRISE |
| Authorization.MinPlanBackupS3 | packages/xo-server/src/xo-mixins/authorization.mjs:29 | `BACKUP.S3` needs ENTREPRISE |
| Authorization.MinPlanDocker | packages/xo-server/src/xo-mixins/authorization.mjs:31 | `DOCKER` needs STARTER |
| Authorization.MinPlanExportXva | packages/xo-server/src/xo-mixins/authorization.mjs:33 | `EXPORT.XVA` needs STARTER |
| Authorization.RejectedIff | packages/xo-server/src/xo-mixins/authorization.mjs:71-79 | the check fails iff the code is unknown or its minimum plan is above the current plan |
| Authorization.CheckMonotone | packages/xo-server/src/xo-mixins/authorization.mjs:73 | a plan that passes a check keeps passing it at every higher plan |
| Authorization.CurrentPlanAdmitsStarterFeatures | packages/xo-server/src/xo-mixins/authorization.mjs:69-80 | with the current plan, `BACKUP.DELTA`, `BACKUP.FULL`, `DOCKER` and `EXPORT.XVA` pass |
| Authorization.CurrentPlanRejectsEntrepriseFeatures | packages/xo-server/src/xo-mixins/authorization.mjs:69-80 | with the current plan, the four ENTREPRISE features are rejected with `featureUnauthorized{code, STARTER, ENTREPRISE}` |
| Authorization.NonLeafCodesPass | packages/xo-server/src/xo-mixins/authorization.mjs:23-34 | the non-leaf codes `BACKUP` and `EXPORT` pass at every plan |
| Authorization.UnknownCodeRejected | packages/xo-server/src/xo-mixins/authorization.mjs:45 | a code absent from the table (`BACKUP.XVA`) fails the assertion at every plan |
| Text.SplitJoin | packages/xo-server/src/xo-mixins/authorization.mjs:44 | splitting the dot-joined keys of a path gives the keys back |
| Text.JoinSplit | packages/xo-server/src/xo-mixins/authorization.mjs:44 | joining the pieces of a split code gives the code back |

The layout lemmas are stated over any `EnvelopeTexts`: `EnvelopeSectionOrder` through `EnvelopeDefaultMemory`, plus `HardwareSectionLayout` and `VirtualSystemLayout`. `EnvelopeTexts` holds the fixed stretches of envelope text between the values. `CreateOvfTemplate` shows that `createOvf` is that template filled with `OvfTexts`, the texts `createOvf` writes, and the ids `"1"` and `"2"`. So each layout lemma applies to every descriptor `createOvf` produces.

## Left out

- The tar byte format: headers, padding and checksums. The model keeps the archive as its entry list.
- The pipe into `writeStream`. The model returns the `Pack` that `pipe` would read.
- Backpressure. The return value of `entry.write` is ignored by the code, and the model does not model it either.
- Completion of the destination stream. The code does not wait for it.
- What `computeVmdkLength` and `vhdToVMDKIterator` compute. They are parameters. `ExactSizesWhenConsistent` takes their agreement as its hypothesis.
- A failing `disk.getStream()`. Streams are modelled as always available over the disk's image.
- The detection of an entry whose written length differs from its declared size. tar-stream does this, and the model leaves it to the `acks` callback results.
- Asynchronous interleaving. The code awaits each step in turn, so the model is sequential.
- The entry callback of an entry whose block stream failed. The promise has already rejected with the stream's error, so the model never consults it.
- Non-string inputs such as an undefined `vmName`.
- Lone UTF-16 surrogates. A JavaScript string may hold one in `vmName`, `vmDescription` or `fileName`, and `Buffer.from(ovf, 'utf8')` writes it as the bytes EF BF BD. A Dafny `string` holds Unicode scalar values only, so `Utf8` never meets one.
- A missing or non-integer `capacityMB`. `Disk.capacityMB` is a `nat`, so the model does not render `undefined`, `NaN` or a fraction into `ovf:capacity`.
- `disks: null`. The default `[]` applies only to a missing list (`DisksOrDefault`); with `null` the code throws at `disks.length` (`ova-generate.js:52`), and the model has no such input.
- XML escaping. The code does none, and neither does the model. A name with `<` or a newline goes into the text as it is. `FileReferenceOneLine` assumes a file name without a newline.
- OvfDescriptor.EnvelopeDefaultMemory: states only the memory quantity `64`, not the item name `64MB of memory`. That name follows from `EnvelopeMemory` at 64.
- Every line of the envelope text is modelled, whitespace included. The layout lemmas state the order of fragments and values, not character offsets.
- Lodash `get` with bracket paths, such as `BACKUP[DELTA]`, and keys inherited from the object prototype, such as `toString`. `Get` follows dot-separated own keys only.
- The lines after `return STARTER` in `#getCurrentPlan`. They are unreachable.
- The logger and `console.log` calls.
- The unused `#app` field.
- The construction of the `featureUnauthorized` error object. It is modelled as its three fields.

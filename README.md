# PocketVMs VM manager, modelled in Dafny

This project models the VM manager of the PocketVMs plugin
(`src/plugins/PocketVMs/vmmanager.cpp`). The manager keeps the catalog of
virtual machines that the user interface shows. Each VM lives in a
directory of the application-data location. That directory holds a QCOW2
disk image, copies of the EFI firmware and the NVRAM template, and an
`info.json` metadata file. The manager does the following:

- lists the catalog by decoding every `info.json` found under the data
  directory (`refreshVMs`, `listEntryForJSON`);
- turns a listed entry back into a `Machine` object (`fromQml`);
- writes a machine's metadata (`machineToJSON`, `editVM`);
- provisions a new VM (`createVM`, which runs `qemu-img` and then calls
  `resetEFIFirmware` and `resetEFINVRAM`);
- deletes a VM's directory (`deleteVM`);
- answers capability queries about the host (`canVirtualize`, `maxRam`,
  `maxCores`, `maxHddSize`).

Layout, one module per file:

| file | module | contents |
|---|---|---|
| `wrappers.dfy` | `Wrappers` | `Option`, `Result` |
| `keys.dfy` | `Keys` | the metadata keys, and their names as an injective map to strings |
| `decimal.dfy` | `Decimal` | `QString::number`, and the string reading of `QVariant::toInt` (64-bit parse, then truncation to `int`), with their round trip |
| `json.dfy` | `Json` | parsed JSON values, objects and documents |
| `variants.dfy` | `Variants` | `QVariant`, `QVariantMap` and the conversions `fromQml` uses |
| `records.dfy` | `Records` | the metadata schema: decoder, encoder, `fromQml` on values, the round trip |
| `files.dfy` | `Files` | the host as a map from paths to contents, and Qt's file operations on it |
| `catalog.dfy` | `Catalog` | `listEntryForJSON` on a file, and the list a refresh builds |
| `provisioning.dfy` | `Provisioning` | file locations, the EFI resets, create, edit and delete as functions |
| `host.dfy` | `Host` | `canVirtualize` and the resource limits |
| `machines.dfy` | `Machines` | the `Machine` object, as a class with mutable fields |
| `manager.dfy` | `Manager` | the `VMManager` object, as a class whose methods are proved against the functions above |

The stateful parts of the source stay stateful:

- `VMManager` is a class. Its fields are the host's files, the listed VMs,
  the refreshing flag, and a counter for each signal it emits.
- `Machine` is a class whose fields the provisioning methods assign.

Each method is proved equal to a function of the old state. The properties
are then proved about those functions: the decoder, the round trip, the
first-failure order of provisioning, idempotent resets, and what a refresh
lists after a create or a delete.

Four details of the code shape the model:

- The architecture whitelist is checked right after `arch` is found. So an
  invalid architecture is reported before a missing `cores`.
- `externalWindowOnly` appears in a decoded entry only when the file has
  it. The default that follows the early `return` (line 316) is never
  reached.
- `fromQml` turns a missing `externalWindowOnly` into `false`, so an entry
  decoded from a file without it yields a machine with that setting off.
  (`machineToJSON` always writes the key, so the round trip never meets
  this case.)
- `hddSize` is never written to the metadata file, so the round trip gives
  back every field except `hddSize`.

## Model

| member | source | states |
|---|---|---|
| Keys.KeyName | src/plugins/PocketVMs/vmmanager.cpp:36-47 | every key the manager uses is spelled as one of the fixed key names |
| Keys.KeyNameInjective | src/plugins/PocketVMs/vmmanager.cpp:36-47 | two distinct keys never share a name, so a map keyed by `Key` is a map keyed by name |
| Decimal.Number | src/plugins/PocketVMs/vmmanager.cpp:326-327 | `QString::number`: non-empty decimal text, with a leading minus sign exactly when the value is negative |
| Decimal.Truncate32 | src/plugins/PocketVMs/vmmanager.cpp:98-99 | the conversion of a 64-bit value to `int` keeps values in the `int` range and is otherwise congruent to its input modulo 2^32 |
| Decimal.ToInt | src/plugins/PocketVMs/vmmanager.cpp:98-99 | how `QVariant::toInt` reads a string: malformed text or a literal beyond 64 bits gives 0; a literal within the `int` range gives its value; any other 64-bit literal wraps modulo 2^32 |
| Decimal.OutOfRangeWraps | src/plugins/PocketVMs/vmmanager.cpp:98-99 | out-of-range text wraps rather than failing: "4294967297" reads as 1, "2147483648" as -2147483648, and a literal beyond 64 bits as 0 |
| Decimal.NumberRoundTrip | src/plugins/PocketVMs/vmmanager.cpp:326-327 | converting a 32-bit cores or mem value to decimal text and back gives the value again |
| Records.DecodeObject | src/plugins/PocketVMs/vmmanager.cpp:265-318 | a failure is an invalid architecture or a missing key that is required and absent; success implies all eight required keys are present and the architecture is whitelisted |
| Records.DecodedKeysExact | src/plugins/PocketVMs/vmmanager.cpp:244-318 | a decoded entry has exactly path, storage, the eight fields and the two settings, plus externalWindowOnly only when the file has it; path and storage are the caller's |
| Records.DecodedValues | src/plugins/PocketVMs/vmmanager.cpp:265-314 | each required field is the JSON value read as a string; each setting is the JSON boolean, false when absent; externalWindowOnly is present iff it is in the file |
| Records.DecodeSucceedsIffComplete | src/plugins/PocketVMs/vmmanager.cpp:265-298 | decoding succeeds iff all eight required keys are present and the architecture is on the whitelist |
| Records.DecodeReportsFirstMissingKey | src/plugins/PocketVMs/vmmanager.cpp:265-298 | key i is reported missing iff it is absent, every earlier key is present, and (after arch) the architecture was accepted |
| Records.DecodeReportsInvalidArch | src/plugins/PocketVMs/vmmanager.cpp:269-273 | an invalid architecture is reported iff description and arch are present and arch is off the whitelist |
| Json.AsString | src/plugins/PocketVMs/vmmanager.cpp:267-298 | `QJsonValue::toString`: a JSON string gives itself, any other value gives "" |
| Json.AsBool | src/plugins/PocketVMs/vmmanager.cpp:301-314 | `QJsonValue::toBool`: a JSON boolean gives itself, any other value gives false |
| Variants.ToStr | src/plugins/PocketVMs/vmmanager.cpp:95-103 | `QVariant::toString`: a string variant gives itself, a missing value gives "" |
| Variants.ToInt | src/plugins/PocketVMs/vmmanager.cpp:98-99 | `QVariant::toInt`: a missing value or malformed text gives 0, a boolean gives 1 or 0, an `int`-range literal gives its value, a 64-bit literal is truncated modulo 2^32 |
| Variants.ToBool | src/plugins/PocketVMs/vmmanager.cpp:104-106 | `QVariant::toBool`: a boolean gives itself, a missing value gives false, "", "0" and "false" give false, "true" and "1" give true |
| Records.FromQml | src/plugins/PocketVMs/vmmanager.cpp:90-109 | hddSize is left at its default; description and arch strings carry over; a missing key gives "", 0 or false, so a missing externalWindowOnly is false |
| Records.Encode | src/plugins/PocketVMs/vmmanager.cpp:321-338 | the encoding has exactly the eleven keys; cores and mem are their decimal text; storage and path are not written |
| Records.EncodedValueKinds | src/plugins/PocketVMs/vmmanager.cpp:324-334 | the eight required fields are written as JSON strings and the three settings as JSON booleans |
| Records.EncodedDecodes | src/plugins/PocketVMs/vmmanager.cpp:321-331 | an encoded machine with a whitelisted architecture always decodes |
| Records.RoundTrip | src/plugins/PocketVMs/vmmanager.cpp:90-338 | encode, then decode with the machine's own storage, then fromQml gives back the machine, except hddSize, which is not persisted |
| Records.EncodedInvalidArchRejected | src/plugins/PocketVMs/vmmanager.cpp:269-273 | an encoded machine whose architecture is off the whitelist is always rejected for that reason |
| Files.DirnameOfChild | src/plugins/PocketVMs/vmmanager.cpp:78 | the canonical directory of dir/name is dir, so a scanned info.json gets its own VM directory as storage |
| Files.ReplaceFile | src/plugins/PocketVMs/vmmanager.cpp:199-210 | on success the target holds the source's content; no file other than the target appears, disappears or changes |
| Files.RemoveExisting | src/plugins/PocketVMs/vmmanager.cpp:200-205 | an existing target is removed only when the host allows it; nothing else changes |
| Files.ReplaceFileMeaning | src/plugins/PocketVMs/vmmanager.cpp:199-210 | remove-then-copy succeeds iff the source is a different readable file, the target is creatable, and an existing target is removable; on success the target holds the source; other files are untouched |
| Files.ReplaceFileIdempotent | src/plugins/PocketVMs/vmmanager.cpp:199-210 | doing the remove-then-copy twice leaves the files as doing it once |
| Files.RemoveTree | src/plugins/PocketVMs/vmmanager.cpp:364 | removeRecursively only removes files; every file outside the directory stays; on success none below it remains |
| Files.RemoveTreeMeaning | src/plugins/PocketVMs/vmmanager.cpp:364 | after removeRecursively, no file below the directory remains when it succeeded; the survivors below it are those the host refused; files outside it are untouched |
| Files.RemoveTreeIdempotent | src/plugins/PocketVMs/vmmanager.cpp:364 | removing the tree a second time changes nothing more |
| Catalog.ListEntry | src/plugins/PocketVMs/vmmanager.cpp:242-263 | an entry is produced only for an existing, readable file that parses to an object, and it carries the caller's path and storage |
| Catalog.ScanEntry | src/plugins/PocketVMs/vmmanager.cpp:78 | a scanned entry's storage is the directory that holds its metadata file |
| Catalog.DecodedEntries | src/plugins/PocketVMs/vmmanager.cpp:74-83 | the refreshed list has at most one entry per scanned file |
| Catalog.ListEntryChecks | src/plugins/PocketVMs/vmmanager.cpp:242-263 | in order, each file-level error is reported iff its check is the first to fail (missing, unopenable, not JSON, not an object); an object is decoded by the schema alone |
| Catalog.DecodedEntriesAppend | src/plugins/PocketVMs/vmmanager.cpp:74-83 | the list for a concatenated scan is the concatenation of the lists, so scan order is kept |
| Catalog.DecodedEntriesSingle | src/plugins/PocketVMs/vmmanager.cpp:76-82 | a file that fails to decode adds nothing; one that decodes adds its entry |
| Catalog.FailedEntrySkipped | src/plugins/PocketVMs/vmmanager.cpp:77-81 | a failing file is skipped without disturbing the entries before or after it |
| Catalog.DecodedEntriesLength | src/plugins/PocketVMs/vmmanager.cpp:74-83 | at most one entry per scanned file, and exactly one per file when every file decodes |
| Catalog.DecodedEntriesMembership | src/plugins/PocketVMs/vmmanager.cpp:74-83 | an entry is listed iff some scanned file decodes to it |
| Catalog.DecodedEntriesWellFormed | src/plugins/PocketVMs/vmmanager.cpp:65-88 | every listed entry has, under path, a scanned file, and a whitelisted architecture |
| Provisioning.VarsArch | src/plugins/PocketVMs/vmmanager.cpp:220-221 | the NVRAM family is "arm" exactly for aarch64 and "i386" for every other architecture |
| Provisioning.QemuImgArgs | src/plugins/PocketVMs/vmmanager.cpp:137-139 | the tool is asked to create a qcow2 image at dir/hdd.qcow2, and the size argument is the decimal text of hddSize followed by G, which reads back as hddSize |
| Provisioning.DiskWritten | src/plugins/PocketVMs/vmmanager.cpp:142-150 | the image the tool left, if any, is dir/hdd.qcow2; without one the files are unchanged; no other file is touched |
| Provisioning.FirmwareSourceInjective | src/plugins/PocketVMs/vmmanager.cpp:197 | two architectures never select the same shipped firmware image |
| Provisioning.NvramSourceFamily | src/plugins/PocketVMs/vmmanager.cpp:220-222 | the ARM NVRAM template is selected iff the architecture is aarch64; every other architecture gets the i386 one |
| Provisioning.TargetsDistinct | src/plugins/PocketVMs/vmmanager.cpp:135-223 | the four fixed file names of a VM directory are four different paths |
| Provisioning.FirmwareSourceDistinct | src/plugins/PocketVMs/vmmanager.cpp:197-198 | the shipped firmware is neither the disk image nor the firmware target |
| Provisioning.NvramSourceDistinct | src/plugins/PocketVMs/vmmanager.cpp:222-223 | the shipped NVRAM template is neither the disk image, nor the firmware copy, nor the NVRAM target |
| Provisioning.FirmwareReset | src/plugins/PocketVMs/vmmanager.cpp:194-214 | flash1 is set to storage/efi.fd exactly on success; otherwise the machine is unchanged |
| Provisioning.FirmwareResetMeaning | src/plugins/PocketVMs/vmmanager.cpp:194-214 | the firmware reset succeeds iff the shipped image is readable and the target is replaceable; then the target holds the image and flash1 names it |
| Provisioning.FirmwareResetIdempotent | src/plugins/PocketVMs/vmmanager.cpp:194-214 | resetting the firmware twice leaves the files and the machine as resetting it once; the second reset succeeds iff the first did and the copy it left is removable |
| Provisioning.NvramReset | src/plugins/PocketVMs/vmmanager.cpp:217-239 | flash2 is set to storage/efi_nvram.fd exactly on success; otherwise the machine is unchanged |
| Provisioning.NvramResetMeaning | src/plugins/PocketVMs/vmmanager.cpp:217-239 | the NVRAM reset succeeds iff the template is readable and the target is replaceable; then the target holds the template and flash2 names it |
| Provisioning.NvramResetIdempotent | src/plugins/PocketVMs/vmmanager.cpp:217-239 | resetting the NVRAM twice leaves the files and the machine as resetting it once; the second reset succeeds iff the first did and the copy it left is removable |
| Provisioning.WriteRecord | src/plugins/PocketVMs/vmmanager.cpp:349-356 | writing the metadata succeeds iff storage/info.json can be opened for writing; then it holds the encoded machine; no other file changes |
| Provisioning.WriteRecordIdempotent | src/plugins/PocketVMs/vmmanager.cpp:340-359 | writing the same machine twice leaves the files as writing it once |
| Provisioning.RecordFileReadsBack | src/plugins/PocketVMs/vmmanager.cpp:65-109 | an info.json holding a machine's encoding (whitelisted architecture, readable) decodes, fromQml of the entry is the machine except hddSize, and a refresh whose scan includes the file lists that entry |
| Provisioning.WriteRecordReadsBack | src/plugins/PocketVMs/vmmanager.cpp:340-359 | after a successful editVM write, the record decodes back to the machine with all its persisted fields, and a refresh whose scan includes it lists that entry |
| Provisioning.WriteRecordUnknownArch | src/plugins/PocketVMs/vmmanager.cpp:269-273 | a written record whose architecture is off the whitelist is rejected when it is read back |
| Provisioning.ResetAndRecord | src/plugins/PocketVMs/vmmanager.cpp:165-187 | on success both flash fields name the fixed targets; in any case the machine is unchanged, has flash1 set, or has both set |
| Provisioning.CreateOutcome | src/plugins/PocketVMs/vmmanager.cpp:118-122 | createVM always sets storage to dataDir/uuid, whether it succeeds or fails |
| Provisioning.CreateDiskFailure | src/plugins/PocketVMs/vmmanager.cpp:142-148 | a non-zero qemu-img exit ends createVM with no file changed and only storage set |
| Provisioning.CreateFirmwareFailure | src/plugins/PocketVMs/vmmanager.cpp:165-169 | a failing firmware reset ends createVM with storage and hdd set and neither flash field set |
| Provisioning.ResetAndRecordFailureLeavesMetadata | src/plugins/PocketVMs/vmmanager.cpp:165-184 | if a reset or the write fails, the metadata file is as it was |
| Provisioning.CreateFailureLeavesMetadata | src/plugins/PocketVMs/vmmanager.cpp:111-190 | a failed createVM leaves the new directory's metadata file as it was |
| Provisioning.ResetAndRecordLayout | src/plugins/PocketVMs/vmmanager.cpp:165-187 | after successful resets and write, the directory holds the firmware copy, the NVRAM copy and the encoded machine; every other file is unchanged |
| Provisioning.CreateSuccessLayout | src/plugins/PocketVMs/vmmanager.cpp:111-190 | a successful createVM sets storage, hdd, flash1 and flash2 to the fixed names in the fresh directory; the firmware, NVRAM and metadata files hold the copies and the encoded machine; hdd.qcow2 holds the tool's image when it left one, and is as before when an exit of 0 came with no image |
| Provisioning.CreatedVMListed | src/plugins/PocketVMs/vmmanager.cpp:65-190 | the metadata a successful createVM writes decodes to the created machine's fields except hddSize, and a refresh whose scan includes it lists that entry |
| Provisioning.CreatedVMWithUnknownArchUnlisted | src/plugins/PocketVMs/vmmanager.cpp:111-190 | createVM does not check the architecture: a VM created with one off the whitelist is rejected when listed |
| Provisioning.DeleteOutcome | src/plugins/PocketVMs/vmmanager.cpp:361-365 | deleteVM leaves the machine as it is, and on success its metadata file is gone |
| Provisioning.DeletedNotListed | src/plugins/PocketVMs/vmmanager.cpp:361-365 | after a successful deleteVM, the metadata file is missing and no listed entry lies in the deleted directory |
| Host.MachineType | src/plugins/PocketVMs/vmmanager.cpp:370-372 | arm64 becomes aarch64 and every other host CPU name is kept, so the result is never arm64 |
| Host.CanVirtualize | src/plugins/PocketVMs/vmmanager.cpp:367-393 | true iff /dev/kvm exists and is readable and writable, and the guest architecture is the host's normalised one |
| Host.AtMostOneArchitecture | src/plugins/PocketVMs/vmmanager.cpp:367-393 | a host accepts at most one guest architecture |
| Host.Arm64NeverAccepted | src/plugins/PocketVMs/vmmanager.cpp:370-392 | the name arm64 is never accepted as a guest architecture |
| Host.MaxRam | src/plugins/PocketVMs/vmmanager.cpp:395-401 | 4096 when sysinfo fails; otherwise the whole MiB of memory minus 2048, as floor bounds |
| Host.MaxRamMonotonic | src/plugins/PocketVMs/vmmanager.cpp:395-401 | more memory never lowers the offer |
| Host.MaxCores | src/plugins/PocketVMs/vmmanager.cpp:403-406 | one processor fewer than the configured ones |
| Host.MaxCoresLeavesOne | src/plugins/PocketVMs/vmmanager.cpp:403-406 | with at least one processor, the offer is a count strictly below the configured ones |
| Host.MaxHddSize | src/plugins/PocketVMs/vmmanager.cpp:408-415 | 32 when statvfs fails; otherwise the whole GiB of free space, never negative |
| Host.MaxHddSizeMonotonic | src/plugins/PocketVMs/vmmanager.cpp:408-415 | more free blocks never lower the offer |
| Machines.Machine.constructor | src/plugins/PocketVMs/vmmanager.cpp:92 | a new machine starts with empty strings, zero numbers and false settings |
| Machines.Machine.LoadText | src/plugins/PocketVMs/vmmanager.cpp:95-103 | assigns storage, name, arch, hdd, dvd, flash1 and flash2 and nothing else |
| Machines.Machine.LoadResources | src/plugins/PocketVMs/vmmanager.cpp:98-106 | assigns cores, mem and the three settings and nothing else |
| Manager.VMManager.constructor | src/plugins/PocketVMs/vmmanager.cpp:54 | a new manager has no listed VMs, is not refreshing, and has emitted no signal |
| Manager.VMManager.SetRefreshing | src/plugins/PocketVMs/vmmanager.cpp:56-63 | the flag takes the value; refreshingChanged is emitted once iff the value changed |
| Manager.VMManager.RefreshVMs | src/plugins/PocketVMs/vmmanager.cpp:65-88 | the list becomes exactly the decoded entries of the scanned files in scan order, failures skipped; vmsChanged once; the flag ends lowered |
| Manager.VMManager.FromQml | src/plugins/PocketVMs/vmmanager.cpp:90-109 | a fresh machine whose fields are the entry's values under Qt's conversions, which Records.RoundTrip inverts |
| Manager.VMManager.RemoveFile | src/plugins/PocketVMs/vmmanager.cpp:202 | the file goes iff it exists and the host allows it |
| Manager.VMManager.CopyFile | src/plugins/PocketVMs/vmmanager.cpp:207 | the copy succeeds iff the source is readable and the target is absent and creatable; then the target holds the source |
| Manager.VMManager.WriteFile | src/plugins/PocketVMs/vmmanager.cpp:180-186 | the write succeeds iff the file can be opened for writing; then it holds the new content |
| Manager.VMManager.Replace | src/plugins/PocketVMs/vmmanager.cpp:200-210 | the step-by-step remove-then-copy equals Files.ReplaceFile |
| Manager.VMManager.ResetEFIFirmware | src/plugins/PocketVMs/vmmanager.cpp:194-214 | the files and the machine afterwards are those Provisioning.FirmwareReset gives |
| Manager.VMManager.ResetEFINVRAM | src/plugins/PocketVMs/vmmanager.cpp:217-239 | the files and the machine afterwards are those Provisioning.NvramReset gives |
| Manager.VMManager.WriteMetadata | src/plugins/PocketVMs/vmmanager.cpp:349-356 | the files afterwards are those Provisioning.WriteRecord gives |
| Manager.VMManager.CreateVM | src/plugins/PocketVMs/vmmanager.cpp:111-190 | a null machine gives false and changes nothing; otherwise the result, files and machine are those Provisioning.CreateOutcome gives |
| Manager.VMManager.EditVM | src/plugins/PocketVMs/vmmanager.cpp:340-359 | a null machine gives false and changes nothing; otherwise the result and files are those Provisioning.WriteRecord gives |
| Manager.VMManager.DeleteVM | src/plugins/PocketVMs/vmmanager.cpp:361-365 | the result and files are those of removing the machine's storage directory recursively |

## Left out

- JSON text: `QJsonDocument::fromJson` on raw bytes is an oracle of the host (`Env.parse`). The text `toJson` prints is modelled as the object it denotes, so reading it back gives that object again.
- The real file system: files are a map from absolute paths to contents, and directories are implicit. `QDir::mkpath` (lines 125-130) therefore has no effect in the model. Permissions are oracles of the host. The `/dev/kvm` checks and the system calls behind the resource queries are parameters.
- The directory scan of `refreshVMs` (lines 68-70, 74-75): the files it yields, and their order, are a parameter of `RefreshVMs`.
- `canonicalPath` (line 78) is modelled as the directory part of the path. Symbolic links are not resolved.
- The fresh directory name comes from `QUuid::createUuid`, which is a parameter. `QStandardPaths` and `applicationDirPath` are fields of the host.
- `qemu-img` is an oracle that returns an exit code and the image it left, if any, which is put at `hdd.qcow2`. An exit code of 0 may come with no image: QProcess also reports 0 when the tool could not be started and when `waitForFinished` gives up after its 30-second default while the tool still runs. `createVM` then sets `hdd` and carries on. On a non-zero exit nothing is written.
- Logging (`qDebug`, `qWarning`) and QML object ownership (line 93) are not modelled. Signals are modelled as counters.
- The `#if 0` block that would move the DVD image (lines 153-163) is not compiled, so it is not modelled.
- Provisioning.WriteRecord: `createVM` opens `info.json` without `Truncate` (line 181), and `editVM` with it (line 351). Both are modelled as replacing the whole file. A partial write, or a failed write after a successful open, is not modelled.
- Decimal.ToInt: the whitespace handling of `QString::toLongLong` is not modelled. Text with surrounding spaces gives 0 here.
- Host.MaxRam: the `mem_unit` scaling of `sysinfo` is not modelled; `totalram` is taken as bytes. The unsigned C arithmetic is modelled with mathematical integers, which agree with the source whenever the result fits in an `int`.
- Host.MaxCores and Host.MaxHddSize: `sysconf` and the `statvfs` product are taken as mathematical integers, with no `int` truncation. The value -1 from a failing `sysconf` is passed through, as in the source.
- The `Machine` class declaration (`machine.h`) is not part of this model. Its fields and their types are taken from their uses in `vmmanager.cpp`, and its initial values are taken to be empty strings, zeros and false.
- The conversions `QVariant::toString`, `toInt` and `toBool` are modelled for the string and boolean variants that a decoded entry holds.
- Provisioning.DeleteOutcome: the machine's storage is taken to be an absolute path with no trailing '/', as `createVM` and `canonicalPath` produce. `QDir` treats an empty path as the working directory and drops a trailing '/'; the model compares raw strings, so an empty or relative storage path, or one ending in '/', is not modelled.
- Keys.KeyName: the object and map types do not exclude a map that holds both a named key and `Other` of its spelling. No parsed JSON object has that form, and the model does not rule it out.
- Concurrency: the manager is taken to run on a single thread.

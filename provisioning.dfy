/**
  The provisioning sequence as functions of the host and a machine: where
  each file of a VM lives, the two EFI resets, createVM, editVM and
  deleteVM, each giving whether it succeeded, the files after it and the
  machine's fields after it.
*/
module Provisioning {
  import opened Wrappers
  import opened Decimal
  import opened Keys
  import opened Variants
  import opened Records
  import opened Files
  import opened Catalog

  // ---- Where things live ----

  /** The fresh directory a new VM is stored in. */
  function VmDir(env: Env, uuid: string): string {
    Child(env.dataDir, uuid)
  }

  function HddPath(dir: string): string { Child(dir, "hdd.qcow2") }

  function JsonPath(dir: string): string { Child(dir, INFO_NAME) }

  function FirmwareTarget(dir: string): string { Child(dir, "efi.fd") }

  function NvramTarget(dir: string): string { Child(dir, "efi_nvram.fd") }

  /** The firmware image shipped with the application for an architecture. */
  function FirmwareSource(appDir: string, arch: string): string {
    appDir + "/efi/" + arch + "/code.fd"
  }

  /** The NVRAM template family: the ARM one for aarch64, the i386 one for anything else. */
  function VarsArch(arch: string): (family: string)
    ensures family == "arm" <==> arch == "aarch64"
    ensures family == "i386" <==> arch != "aarch64"
  {
    if arch == "aarch64" then "arm" else "i386"
  }

  function NvramSource(appDir: string, arch: string): string {
    appDir + "/share/qemu/edk2-" + VarsArch(arch) + "-vars.fd"
  }

  function QemuImgBin(appDir: string): string { appDir + "/bin/qemu-img" }

  /** The disk tool's arguments: a qcow2 image at the VM's disk path, sized in GiB. */
  function QemuImgArgs(dir: string, hddSize: Int32): (args: seq<string>)
    ensures |args| == 5 && args[..3] == ["create", "-f", "qcow2"] && args[3] == HddPath(dir)
    ensures |args[4]| > 1 && args[4][|args[4]| - 1] == 'G'
    ensures ParseInteger(args[4][..|args[4]| - 1]) == Some(hddSize as int)
  {
    var size := Number(hddSize) + "G";
    assert size[..|size| - 1] == Number(hddSize);
    NumberParses(hddSize);
    ["create", "-f", "qcow2", HddPath(dir), size]
  }

  /**
    An architecture selects its own firmware image: two architectures never
    share one.
  */
  lemma FirmwareSourceInjective(appDir: string, a: string, b: string)
    requires FirmwareSource(appDir, a) == FirmwareSource(appDir, b)
    ensures a == b
  {
    var pre := appDir + "/efi/";
    var sa := FirmwareSource(appDir, a);
    assert sa == pre + (a + "/code.fd");
    assert FirmwareSource(appDir, b) == pre + (b + "/code.fd");
    assert sa[|pre|..] == a + "/code.fd";
    assert a + "/code.fd" == b + "/code.fd";
    assert a == (a + "/code.fd")[..|a|];
  }

  /** Exactly aarch64 gets the ARM NVRAM template; every other architecture gets the i386 one. */
  lemma NvramSourceFamily(appDir: string, arch: string)
    ensures NvramSource(appDir, arch) == appDir + "/share/qemu/edk2-arm-vars.fd" <==> arch == "aarch64"
    ensures NvramSource(appDir, arch) == appDir + "/share/qemu/edk2-i386-vars.fd" <==> arch != "aarch64"
  {
    var pre := appDir + "/share/qemu/edk2-";
    var arm := pre + "arm" + "-vars.fd";
    var i386 := pre + "i386" + "-vars.fd";
    assert arm[|pre|] == 'a' && i386[|pre|] == 'i';
  }

  /** The four files of a VM directory have four different paths. */
  lemma TargetsDistinct(dir: string)
    ensures JsonPath(dir) != HddPath(dir) && JsonPath(dir) != FirmwareTarget(dir)
    ensures JsonPath(dir) != NvramTarget(dir) && HddPath(dir) != FirmwareTarget(dir)
    ensures HddPath(dir) != NvramTarget(dir) && FirmwareTarget(dir) != NvramTarget(dir)
  {
    var d := dir + "/";
    SuffixesDiffer(d, "efi.fd", d, "efi_nvram.fd");
    SuffixesDiffer(d, "efi.fd", d, "hdd.qcow2");
    SuffixesDiffer(d, "efi.fd", d, "info.json");
    SuffixesDiffer(d, "hdd.qcow2", d, "efi_nvram.fd");
    SuffixesDiffer(d, "info.json", d, "hdd.qcow2");
    SuffixesDiffer(d, "info.json", d, "efi_nvram.fd");
  }

  /** The shipped firmware image is never one of the files the sequence writes before copying it. */
  lemma FirmwareSourceDistinct(appDir: string, arch: string, dir: string)
    ensures FirmwareSource(appDir, arch) != HddPath(dir)
    ensures FirmwareSource(appDir, arch) != FirmwareTarget(dir)
  {
    var fs := appDir + "/efi/" + arch;
    SuffixesDiffer(fs, "/code.fd", dir + "/", "hdd.qcow2");
    SuffixesDiffer(dir + "/", "efi.fd", fs, "/code.fd");
  }

  /** The shipped NVRAM template is never one of the files the sequence writes before copying it. */
  lemma NvramSourceDistinct(appDir: string, arch: string, dir: string)
    ensures NvramSource(appDir, arch) != HddPath(dir)
    ensures NvramSource(appDir, arch) != FirmwareTarget(dir)
    ensures NvramSource(appDir, arch) != NvramTarget(dir)
  {
    var ns := appDir + "/share/qemu/edk2-" + VarsArch(arch);
    SuffixesDiffer(ns, "-vars.fd", dir + "/", "hdd.qcow2");
    SuffixesDiffer(dir + "/", "efi.fd", ns, "-vars.fd");
    SuffixesDiffer(ns, "-vars.fd", dir + "/", "efi_nvram.fd");
  }

  // ---- The operations ----

  /** What a provisioning step reports, the files after it, and the machine's fields after it. */
  datatype Outcome = Outcome(ok: bool, files: FileMap, machine: MachineRecord)

  /** resetEFIFirmware: copy the architecture's firmware over dir/efi.fd; flash1 names it on success. */
  function FirmwareReset(env: Env, files: FileMap, m: MachineRecord): (r: Outcome)
    ensures r.machine == (if r.ok then m.(flash1 := FirmwareTarget(m.storage)) else m)
  {
    var target := FirmwareTarget(m.storage);
    var s := ReplaceFile(env, files, FirmwareSource(env.appDir, m.arch), target);
    Outcome(s.ok, s.files, if s.ok then m.(flash1 := target) else m)
  }

  /** resetEFINVRAM: copy the NVRAM template over dir/efi_nvram.fd; flash2 names it on success. */
  function NvramReset(env: Env, files: FileMap, m: MachineRecord): (r: Outcome)
    ensures r.machine == (if r.ok then m.(flash2 := NvramTarget(m.storage)) else m)
  {
    var target := NvramTarget(m.storage);
    var s := ReplaceFile(env, files, NvramSource(env.appDir, m.arch), target);
    Outcome(s.ok, s.files, if s.ok then m.(flash2 := target) else m)
  }

  /**
    The firmware reset succeeds exactly when the shipped image can be read
    and the target can be replaced; then the target holds the image and
    flash1 names it, otherwise the machine is unchanged.
  */
  lemma FirmwareResetMeaning(env: Env, files: FileMap, m: MachineRecord)
    ensures var src := FirmwareSource(env.appDir, m.arch);
      var dst := FirmwareTarget(m.storage);
      var r := FirmwareReset(env, files, m);
      && (r.ok <==> src in files && env.readable(src) && env.writable(dst)
                    && (dst in files ==> env.removable(dst)))
      && (r.ok ==> r.machine == m.(flash1 := dst) && dst in r.files && r.files[dst] == files[src])
      && (!r.ok ==> r.machine == m)
      && (forall q | q != dst :: (q in r.files <==> q in files))
  {
    FirmwareSourceDistinct(env.appDir, m.arch, m.storage);
    ReplaceFileMeaning(env, files, FirmwareSource(env.appDir, m.arch), FirmwareTarget(m.storage));
  }

  /** The NVRAM reset, likewise, with flash2. */
  lemma NvramResetMeaning(env: Env, files: FileMap, m: MachineRecord)
    ensures var src := NvramSource(env.appDir, m.arch);
      var dst := NvramTarget(m.storage);
      var r := NvramReset(env, files, m);
      && (r.ok <==> src in files && env.readable(src) && env.writable(dst)
                    && (dst in files ==> env.removable(dst)))
      && (r.ok ==> r.machine == m.(flash2 := dst) && dst in r.files && r.files[dst] == files[src])
      && (!r.ok ==> r.machine == m)
      && (forall q | q != dst :: (q in r.files <==> q in files))
  {
    NvramSourceDistinct(env.appDir, m.arch, m.storage);
    ReplaceFileMeaning(env, files, NvramSource(env.appDir, m.arch), NvramTarget(m.storage));
  }

  /**
    Resetting the firmware twice leaves the files and the machine as
    resetting it once. The second reset reports success exactly when the
    first did and the copy it left can be removed again.
  */
  lemma FirmwareResetIdempotent(env: Env, files: FileMap, m: MachineRecord)
    ensures var once := FirmwareReset(env, files, m);
      var twice := FirmwareReset(env, once.files, once.machine);
      && twice.files == once.files && twice.machine == once.machine
      && (twice.ok <==> once.ok && env.removable(FirmwareTarget(m.storage)))
  {
    ReplaceFileIdempotent(env, files, FirmwareSource(env.appDir, m.arch), FirmwareTarget(m.storage));
    var once := FirmwareReset(env, files, m);
    FirmwareSourceDistinct(env.appDir, m.arch, m.storage);
    FirmwareResetMeaning(env, files, m);
    FirmwareResetMeaning(env, once.files, once.machine);
  }

  /**
    Resetting the NVRAM twice leaves the files and the machine as resetting
    it once. The second reset reports success exactly when the first did and
    the copy it left can be removed again.
  */
  lemma NvramResetIdempotent(env: Env, files: FileMap, m: MachineRecord)
    ensures var once := NvramReset(env, files, m);
      var twice := NvramReset(env, once.files, once.machine);
      && twice.files == once.files && twice.machine == once.machine
      && (twice.ok <==> once.ok && env.removable(NvramTarget(m.storage)))
  {
    ReplaceFileIdempotent(env, files, NvramSource(env.appDir, m.arch), NvramTarget(m.storage));
    var once := NvramReset(env, files, m);
    NvramSourceDistinct(env.appDir, m.arch, m.storage);
    NvramResetMeaning(env, files, m);
    NvramResetMeaning(env, once.files, once.machine);
  }

  /**
    Opening dir/info.json of the machine's storage for writing and writing
    the machine's record to it: the last step of createVM, and all of
    editVM. Only that one file changes.
  */
  function WriteRecord(env: Env, files: FileMap, m: MachineRecord): (r: Outcome)
    ensures r.machine == m
    ensures r.ok <==> env.writable(JsonPath(m.storage))
    ensures r.ok ==> JsonPath(m.storage) in r.files && r.files[JsonPath(m.storage)] == Document(Encode(m))
    ensures !r.ok ==> r.files == files
    ensures forall p | p != JsonPath(m.storage) :: (p in r.files <==> p in files)
    ensures forall p | p != JsonPath(m.storage) && p in files :: r.files[p] == files[p]
  {
    var path := JsonPath(m.storage);
    if env.writable(path) then Outcome(true, files[path := Document(Encode(m))], m)
    else Outcome(false, files, m)
  }

  /** Writing the record twice leaves the files as writing it once. */
  lemma WriteRecordIdempotent(env: Env, files: FileMap, m: MachineRecord)
    ensures var once := WriteRecord(env, files, m);
      WriteRecord(env, once.files, m).files == once.files
  {
  }

  /**
    A metadata file holding a machine's record, in the machine's own
    storage directory, with a whitelisted architecture and readable,
    decodes to the machine's fields (but hddSize, which is not persisted),
    and a refresh whose scan reaches it lists that entry.
  */
  lemma RecordFileReadsBack(env: Env, files: FileMap, m: MachineRecord, scanned: seq<string>)
    requires JsonPath(m.storage) in files && files[JsonPath(m.storage)] == Document(Encode(m))
    requires m.arch in VALID_ARCHES && env.readable(JsonPath(m.storage))
    ensures ScanEntry(env, files, JsonPath(m.storage)).Success?
    ensures FromQml(ScanEntry(env, files, JsonPath(m.storage)).value) == m.(hddSize := DEFAULT_HDD_SIZE)
    ensures JsonPath(m.storage) in scanned ==>
      ScanEntry(env, files, JsonPath(m.storage)).value in DecodedEntries(env, files, scanned)
  {
    DirnameOfChild(m.storage, INFO_NAME);
    RoundTrip(JsonPath(m.storage), m);
    if JsonPath(m.storage) in scanned {
      var vm := ScanEntry(env, files, JsonPath(m.storage)).value;
      var i :| 0 <= i < |scanned| && scanned[i] == JsonPath(m.storage);
      DecodedEntriesMembership(env, files, scanned, vm);
    }
  }

  /**
    After a successful editVM write, the record decodes back to the
    machine, and a refresh whose scan reaches it lists that entry.
  */
  lemma WriteRecordReadsBack(env: Env, files: FileMap, m: MachineRecord, scanned: seq<string>)
    requires m.arch in VALID_ARCHES && env.readable(JsonPath(m.storage))
    ensures var r := WriteRecord(env, files, m);
      r.ok ==>
        && ScanEntry(env, r.files, JsonPath(m.storage)).Success?
        && FromQml(ScanEntry(env, r.files, JsonPath(m.storage)).value) == m.(hddSize := DEFAULT_HDD_SIZE)
        && (JsonPath(m.storage) in scanned ==>
              ScanEntry(env, r.files, JsonPath(m.storage)).value in DecodedEntries(env, r.files, scanned))
  {
    var r := WriteRecord(env, files, m);
    if r.ok {
      RecordFileReadsBack(env, r.files, m, scanned);
    }
  }

  /** Reading back the written record of a machine with an architecture off the whitelist rejects it. */
  lemma WriteRecordUnknownArch(env: Env, files: FileMap, m: MachineRecord)
    requires m.arch !in VALID_ARCHES && env.readable(JsonPath(m.storage))
    ensures var r := WriteRecord(env, files, m);
      r.ok ==> ScanEntry(env, r.files, JsonPath(m.storage)) == Failure(InvalidArch)
  {
    EncodedInvalidArchRejected(JsonPath(m.storage), m);
  }

  /**
    createVM once the disk image exists: reset the firmware, then the NVRAM,
    then write the record, stopping at the first failure.
  */
  function ResetAndRecord(env: Env, files: FileMap, m: MachineRecord): (r: Outcome)
    ensures r.ok ==> r.machine == m.(flash1 := FirmwareTarget(m.storage), flash2 := NvramTarget(m.storage))
    ensures || r.machine == m
            || r.machine == m.(flash1 := FirmwareTarget(m.storage))
            || r.machine == m.(flash1 := FirmwareTarget(m.storage), flash2 := NvramTarget(m.storage))
  {
    var fw := FirmwareReset(env, files, m);
    if !fw.ok then fw
    else
      var nv := NvramReset(env, fw.files, fw.machine);
      if !nv.ok then nv
      else WriteRecord(env, nv.files, nv.machine)
  }

  /** The files after the disk tool ran for directory dir: its image, when it left one, is dir/hdd.qcow2. */
  function DiskWritten(files: FileMap, dir: string, run: ToolRun): (r: FileMap)
    ensures run.image.Some? ==> HddPath(dir) in r && r[HddPath(dir)] == Blob(run.image.value)
    ensures run.image.None? ==> r == files
    ensures forall p | p != HddPath(dir) :: (p in r <==> p in files)
    ensures forall p | p != HddPath(dir) && p in files :: r[p] == files[p]
  {
    match run.image
    case Some(b) => files[HddPath(dir) := Blob(b)]
    case None => files
  }

  /**
    createVM for a machine: it is given the fresh directory first, the disk
    tool must then exit with 0 (its image sits at dir/hdd.qcow2 and hdd
    names it), and the resets and the record follow.
  */
  function CreateOutcome(env: Env, files: FileMap, m: MachineRecord, uuid: string): (r: Outcome)
    ensures r.machine.storage == VmDir(env, uuid)
  {
    var dir := VmDir(env, uuid);
    var m1 := m.(storage := dir);
    var run := env.qemuImg(QemuImgBin(env.appDir), QemuImgArgs(dir, m1.hddSize));
    if run.exitCode != 0 then Outcome(false, files, m1)
    else ResetAndRecord(env, DiskWritten(files, dir, run), m1.(hdd := HddPath(dir)))
  }

  /** A failing disk tool ends createVM before any file is touched, with hdd unchanged. */
  lemma CreateDiskFailure(env: Env, files: FileMap, m: MachineRecord, uuid: string)
    requires env.qemuImg(QemuImgBin(env.appDir), QemuImgArgs(VmDir(env, uuid), m.hddSize)).exitCode != 0
    ensures CreateOutcome(env, files, m, uuid) == Outcome(false, files, m.(storage := VmDir(env, uuid)))
  {
  }

  /** A failing firmware reset ends createVM with neither flash field set. */
  lemma CreateFirmwareFailure(env: Env, files: FileMap, m: MachineRecord, uuid: string)
    requires env.qemuImg(QemuImgBin(env.appDir), QemuImgArgs(VmDir(env, uuid), m.hddSize)).exitCode == 0
    requires var dir := VmDir(env, uuid);
      var run := env.qemuImg(QemuImgBin(env.appDir), QemuImgArgs(dir, m.hddSize));
      !FirmwareReset(env, DiskWritten(files, dir, run), m.(storage := dir, hdd := HddPath(dir))).ok
    ensures var r := CreateOutcome(env, files, m, uuid);
      && !r.ok
      && r.machine == m.(storage := VmDir(env, uuid), hdd := HddPath(VmDir(env, uuid)))
  {
  }

  /** When the steps after the disk fail, the metadata file is as it was. */
  lemma ResetAndRecordFailureLeavesMetadata(env: Env, files: FileMap, m: MachineRecord)
    ensures var r := ResetAndRecord(env, files, m);
      var js := JsonPath(m.storage);
      !r.ok ==> (js in r.files <==> js in files) && (js in files ==> r.files[js] == files[js])
  {
    TargetsDistinct(m.storage);
    var fw := FirmwareReset(env, files, m);
    FirmwareResetMeaning(env, files, m);
    ReplaceFileMeaning(env, files, FirmwareSource(env.appDir, m.arch), FirmwareTarget(m.storage));
    if fw.ok {
      ReplaceFileMeaning(env, fw.files, NvramSource(env.appDir, fw.machine.arch), NvramTarget(fw.machine.storage));
    }
  }

  /** When createVM fails, the metadata file of the new directory is as it was. */
  lemma CreateFailureLeavesMetadata(env: Env, files: FileMap, m: MachineRecord, uuid: string)
    ensures var r := CreateOutcome(env, files, m, uuid);
      var js := JsonPath(VmDir(env, uuid));
      !r.ok ==> (js in r.files <==> js in files) && (js in files ==> r.files[js] == files[js])
  {
    var dir := VmDir(env, uuid);
    var run := env.qemuImg(QemuImgBin(env.appDir), QemuImgArgs(dir, m.hddSize));
    if run.exitCode == 0 {
      TargetsDistinct(dir);
      ResetAndRecordFailureLeavesMetadata(env, DiskWritten(files, dir, run), m.(storage := dir, hdd := HddPath(dir)));
    }
  }

  /**
    After successful resets and record, the directory holds copies of the
    shipped firmware and NVRAM template and the machine's record, and every
    other file is as it was.
  */
  lemma ResetAndRecordLayout(env: Env, files: FileMap, m: MachineRecord)
    ensures var r := ResetAndRecord(env, files, m);
      var dir := m.storage;
      r.ok ==>
        && JsonPath(dir) in r.files && r.files[JsonPath(dir)] == Document(Encode(r.machine))
        && FirmwareSource(env.appDir, m.arch) in files && FirmwareTarget(dir) in r.files
        && r.files[FirmwareTarget(dir)] == files[FirmwareSource(env.appDir, m.arch)]
        && NvramSource(env.appDir, m.arch) in files && NvramTarget(dir) in r.files
        && r.files[NvramTarget(dir)] == files[NvramSource(env.appDir, m.arch)]
        && (forall p | p in files && p !in {JsonPath(dir), FirmwareTarget(dir), NvramTarget(dir)} ::
              p in r.files && r.files[p] == files[p])
        && (forall p | p in r.files && p !in {JsonPath(dir), FirmwareTarget(dir), NvramTarget(dir)} ::
              p in files)
  {
    var r := ResetAndRecord(env, files, m);
    if r.ok {
      var dir := m.storage;
      TargetsDistinct(dir);
      NvramSourceDistinct(env.appDir, m.arch, dir);
      var fw := FirmwareReset(env, files, m);
      FirmwareResetMeaning(env, files, m);
      ReplaceFileMeaning(env, files, FirmwareSource(env.appDir, m.arch), FirmwareTarget(dir));
      NvramResetMeaning(env, fw.files, fw.machine);
      ReplaceFileMeaning(env, fw.files, NvramSource(env.appDir, m.arch), NvramTarget(dir));
    }
  }

  /**
    A successful createVM leaves the machine's files at the fixed names in
    the fresh directory: the disk image (when the tool left one), copies of
    the shipped firmware and NVRAM template, and the metadata file holding
    the machine's record. When the tool reported 0 but left no image, hdd
    still names dir/hdd.qcow2, and that path is as it was before.
  */
  lemma CreateSuccessLayout(env: Env, files: FileMap, m: MachineRecord, uuid: string)
    ensures var dir := VmDir(env, uuid);
      var r := CreateOutcome(env, files, m, uuid);
      var run := env.qemuImg(QemuImgBin(env.appDir), QemuImgArgs(dir, m.hddSize));
      r.ok ==>
        && r.machine == m.(storage := dir, hdd := HddPath(dir), flash1 := FirmwareTarget(dir), flash2 := NvramTarget(dir))
        && JsonPath(dir) in r.files && r.files[JsonPath(dir)] == Document(Encode(r.machine))
        && (run.image.Some? ==> HddPath(dir) in r.files && r.files[HddPath(dir)] == Blob(run.image.value))
        && (run.image.None? ==>
              && (HddPath(dir) in r.files <==> HddPath(dir) in files)
              && (HddPath(dir) in files ==> r.files[HddPath(dir)] == files[HddPath(dir)]))
        && FirmwareSource(env.appDir, m.arch) in files && FirmwareTarget(dir) in r.files
        && r.files[FirmwareTarget(dir)] == files[FirmwareSource(env.appDir, m.arch)]
        && NvramSource(env.appDir, m.arch) in files && NvramTarget(dir) in r.files
        && r.files[NvramTarget(dir)] == files[NvramSource(env.appDir, m.arch)]
  {
    var dir := VmDir(env, uuid);
    var r := CreateOutcome(env, files, m, uuid);
    if r.ok {
      var run := env.qemuImg(QemuImgBin(env.appDir), QemuImgArgs(dir, m.hddSize));
      var f1 := DiskWritten(files, dir, run);
      TargetsDistinct(dir);
      FirmwareSourceDistinct(env.appDir, m.arch, dir);
      NvramSourceDistinct(env.appDir, m.arch, dir);
      ResetAndRecordLayout(env, f1, m.(storage := dir, hdd := HddPath(dir)));
    }
  }

  /**
    The record a successful createVM writes decodes to the machine's fields,
    and a refresh whose scan reaches it lists that entry.
  */
  lemma CreatedVMListed(env: Env, files: FileMap, m: MachineRecord, uuid: string, scanned: seq<string>)
    requires m.arch in VALID_ARCHES
    requires env.readable(JsonPath(VmDir(env, uuid)))
    ensures var r := CreateOutcome(env, files, m, uuid);
      r.ok ==>
        && ScanEntry(env, r.files, JsonPath(VmDir(env, uuid))).Success?
        && FromQml(ScanEntry(env, r.files, JsonPath(VmDir(env, uuid))).value) == r.machine.(hddSize := DEFAULT_HDD_SIZE)
        && (JsonPath(VmDir(env, uuid)) in scanned ==>
              ScanEntry(env, r.files, JsonPath(VmDir(env, uuid))).value in DecodedEntries(env, r.files, scanned))
  {
    var dir := VmDir(env, uuid);
    var r := CreateOutcome(env, files, m, uuid);
    if r.ok {
      CreateSuccessLayout(env, files, m, uuid);
      RecordFileReadsBack(env, r.files, r.machine, scanned);
    }
  }

  /**
    createVM does not check the architecture: a machine created with one off
    the whitelist is never listed.
  */
  lemma CreatedVMWithUnknownArchUnlisted(env: Env, files: FileMap, m: MachineRecord, uuid: string)
    requires m.arch !in VALID_ARCHES
    requires env.readable(JsonPath(VmDir(env, uuid)))
    ensures var r := CreateOutcome(env, files, m, uuid);
      r.ok ==> ScanEntry(env, r.files, JsonPath(VmDir(env, uuid))) == Failure(InvalidArch)
  {
    var r := CreateOutcome(env, files, m, uuid);
    if r.ok {
      CreateSuccessLayout(env, files, m, uuid);
      EncodedInvalidArchRejected(JsonPath(VmDir(env, uuid)), r.machine);
    }
  }

  /** deleteVM: the machine's storage directory is removed recursively. */
  function DeleteOutcome(env: Env, files: FileMap, m: MachineRecord): (r: Outcome)
    ensures r.machine == m
    ensures r.ok ==> JsonPath(m.storage) !in r.files
  {
    ChildIsUnder(m.storage, INFO_NAME);
    var s := RemoveTree(env, files, m.storage);
    Outcome(s.ok, s.files, m)
  }

  /** After a successful deleteVM, no refresh lists anything from the deleted directory. */
  lemma DeletedNotListed(env: Env, files: FileMap, m: MachineRecord, scanned: seq<string>)
    ensures var r := DeleteOutcome(env, files, m);
      r.ok ==>
        && ScanEntry(env, r.files, JsonPath(m.storage)) == Failure(FileMissing)
        && forall vm: VariantMap | vm in DecodedEntries(env, r.files, scanned) ::
             Path in vm && vm[Path].VString? && !IsUnder(vm[Path].str, m.storage)
  {
    var r := DeleteOutcome(env, files, m);
    if r.ok {
      RemoveTreeMeaning(env, files, m.storage);
      ChildIsUnder(m.storage, INFO_NAME);
      DecodedEntriesWellFormed(env, r.files, scanned);
      forall vm: VariantMap | vm in DecodedEntries(env, r.files, scanned)
        ensures Path in vm && vm[Path].VString? && !IsUnder(vm[Path].str, m.storage)
      {
        DecodedEntriesMembership(env, r.files, scanned, vm);
        var i :| 0 <= i < |scanned| && ScanEntry(env, r.files, scanned[i]) == Success(vm);
        var p := scanned[i];
        var o := ReadDocument(env, r.files[p]).root;
        DecodedKeysExact(p, Dirname(p), o);
      }
    }
  }
}

/**
  The VM manager object: the catalog it keeps
  (refreshVMs, setRefreshing), the conversion of a listed map to a machine
  (fromQml), and the provisioning operations that change a machine's
  fields and the host's files step by step.
*/
module Manager {
  import opened Variants
  import opened Records
  import opened Files
  import opened Catalog
  import opened Provisioning
  import opened Machines

  /** The manager: the host's files, the listed VMs, and the refreshing flag with its notifications. */
  class VMManager {
    const env: Env
    var files: FileMap
    var vms: seq<VariantMap>
    var refreshing: bool
    /** How many refreshingChanged notifications have been sent. */
    var refreshingChanged: nat
    /** How many vmsChanged notifications have been sent. */
    var vmsChanged: nat

    constructor (env: Env, files: FileMap)
      ensures this.env == env && this.files == files
      ensures vms == [] && !refreshing && refreshingChanged == 0 && vmsChanged == 0
    {
      this.env := env;
      this.files := files;
      vms := [];
      refreshing := false;
      refreshingChanged := 0;
      vmsChanged := 0;
    }

    /** setRefreshing: the flag takes the value, with a notification only when it changes. */
    method SetRefreshing(value: bool)
      modifies this`refreshing, this`refreshingChanged
      ensures refreshing == value
      ensures refreshingChanged == old(refreshingChanged) + (if old(refreshing) == value then 0 else 1)
    {
      if refreshing == value {
        return;
      }
      refreshing := value;
      refreshingChanged := refreshingChanged + 1;
    }

    /**
      refreshVMs over the metadata files the directory scan yields, in its
      order: the list becomes the successfully decoded entries, with one
      vmsChanged notification, and the flag is raised for the scan and
      lowered after it.
    */
    method RefreshVMs(scanned: seq<string>)
      modifies this`vms, this`refreshing, this`refreshingChanged, this`vmsChanged
      ensures vms == DecodedEntries(env, files, scanned)
      ensures !refreshing
      ensures vmsChanged == old(vmsChanged) + 1
      ensures refreshingChanged == old(refreshingChanged) + (if old(refreshing) then 1 else 2)
    {
      var list: seq<VariantMap> := [];
      SetRefreshing(true);
      var i := 0;
      while i < |scanned|
        invariant 0 <= i <= |scanned|
        invariant list == DecodedEntries(env, files, scanned[..i])
      {
        assert scanned[..i + 1][..i] == scanned[..i];
        match ScanEntry(env, files, scanned[i]) {
          case Success(vm) =>
            list := list + [vm];
          case Failure(_) =>
        }
        i := i + 1;
      }
      assert scanned[..i] == scanned;
      vms := list;
      vmsChanged := vmsChanged + 1;
      SetRefreshing(false);
    }

    /** fromQml: a new machine whose fields are set from a listed map. */
    method FromQml(vm: VariantMap) returns (machine: Machine)
      ensures fresh(machine)
      ensures machine.Value() == Records.FromQml(vm)
    {
      var r := Records.FromQml(vm);
      machine := new Machine();
      machine.LoadText(r);
      machine.LoadResources(r);
    }

    /** QFile::remove: the file goes when it exists and the host allows it. */
    method RemoveFile(p: string) returns (ok: bool)
      modifies this`files
      ensures ok == (p in old(files) && env.removable(p))
      ensures files == if ok then old(files) - {p} else old(files)
    {
      ok := p in files && env.removable(p);
      if ok {
        files := files - {p};
      }
    }

    /** QFile::copy: dst receives src's content when copying is allowed. */
    method CopyFile(src: string, dst: string) returns (ok: bool)
      modifies this`files
      ensures ok == CopyAllowed(env, old(files), src, dst)
      ensures files == if ok then old(files)[dst := old(files)[src]] else old(files)
    {
      ok := CopyAllowed(env, files, src, dst);
      if ok {
        files := files[dst := files[src]];
      }
    }

    /** Opening a file for writing and writing c to it. */
    method WriteFile(p: string, c: Content) returns (ok: bool)
      modifies this`files
      ensures ok == env.writable(p)
      ensures files == if ok then old(files)[p := c] else old(files)
    {
      ok := env.writable(p);
      if ok {
        files := files[p := c];
      }
    }

    /** The shared shape of both EFI resets: remove an existing target, then copy the source over it. */
    method Replace(src: string, dst: string) returns (ok: bool)
      modifies this`files
      ensures Step(ok, files) == ReplaceFile(env, old(files), src, dst)
    {
      if dst in files {
        var removed := RemoveFile(dst);
      }
      ok := CopyFile(src, dst);
    }

    /** resetEFIFirmware: on success flash1 names the fresh copy of the architecture's firmware. */
    method ResetEFIFirmware(machine: Machine) returns (ok: bool)
      modifies this`files, machine`flash1
      ensures Outcome(ok, files, machine.Value()) == FirmwareReset(env, old(files), old(machine.Value()))
    {
      var target := FirmwareTarget(machine.storage);
      ok := Replace(FirmwareSource(env.appDir, machine.arch), target);
      if !ok {
        return;
      }
      machine.flash1 := target;
    }

    /** resetEFINVRAM: on success flash2 names the fresh copy of the NVRAM template. */
    method ResetEFINVRAM(machine: Machine) returns (ok: bool)
      modifies this`files, machine`flash2
      ensures Outcome(ok, files, machine.Value()) == NvramReset(env, old(files), old(machine.Value()))
    {
      var target := NvramTarget(machine.storage);
      ok := Replace(NvramSource(env.appDir, machine.arch), target);
      if !ok {
        return;
      }
      machine.flash2 := target;
    }

    /** Writing a machine's record to the metadata file of its storage directory. */
    method WriteMetadata(machine: Machine) returns (ok: bool)
      modifies this`files
      ensures Outcome(ok, files, machine.Value()) == WriteRecord(env, old(files), machine.Value())
    {
      ok := WriteFile(JsonPath(machine.storage), Document(Encode(machine.Value())));
    }

    /**
      createVM: no machine, no VM; otherwise storage is set to the fresh
      directory, the disk tool is run, the firmware and NVRAM are reset and
      the record is written, stopping at the first step that fails.
    */
    method CreateVM(machine: Machine?, uuid: string) returns (ok: bool)
      modifies this`files, machine
      ensures machine == null ==> !ok && files == old(files)
      ensures machine != null ==>
        Outcome(ok, files, machine.Value()) == CreateOutcome(env, old(files), old(machine.Value()), uuid)
    {
      if machine == null {
        return false;
      }
      var dir := VmDir(env, uuid);
      machine.storage := dir;
      var run := env.qemuImg(QemuImgBin(env.appDir), QemuImgArgs(dir, machine.hddSize));
      if run.exitCode != 0 {
        return false;
      }
      // the image the tool left, if any
      files := DiskWritten(files, dir, run);
      machine.hdd := HddPath(dir);
      ok := ResetEFIFirmware(machine);
      if !ok {
        return;
      }
      ok := ResetEFINVRAM(machine);
      if !ok {
        return;
      }
      ok := WriteMetadata(machine);
    }

    /** editVM: no machine, no change; otherwise its record is rewritten in its storage directory. */
    method EditVM(machine: Machine?) returns (ok: bool)
      modifies this`files
      ensures machine == null ==> !ok && files == old(files)
      ensures machine != null ==>
        Outcome(ok, files, machine.Value()) == WriteRecord(env, old(files), machine.Value())
    {
      if machine == null {
        return false;
      }
      ok := WriteMetadata(machine);
    }

    /** deleteVM: the machine's storage directory is removed recursively. */
    method DeleteVM(machine: Machine) returns (ok: bool)
      modifies this`files
      ensures Outcome(ok, files, machine.Value()) == DeleteOutcome(env, old(files), machine.Value())
    {
      var s := RemoveTree(env, files, machine.storage);
      ok := s.ok;
      files := s.files;
    }
  }
}

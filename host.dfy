/**
  The host capability queries: whether a guest architecture can be run
  with hardware virtualisation, and the largest memory, processor count
  and disk size offered for a new VM. The system calls' results are
  parameters.
*/
module Host {
  import opened Wrappers

  /** What the host reports about the /dev/kvm device node. */
  datatype DeviceNode = DeviceNode(present: bool, readable: bool, writable: bool)

  /** The host CPU name in the architecture vocabulary of the records: arm64 is called aarch64. */
  function MachineType(cpu: string): (t: string)
    ensures cpu == "arm64" ==> t == "aarch64"
    ensures cpu != "arm64" ==> t == cpu
    ensures t != "arm64"
  {
    if cpu == "arm64" then "aarch64" else cpu
  }

  /**
    canVirtualize: never without a KVM device that exists and can be read
    and written; with one, exactly when the guest architecture is the
    host's (arm64 hosts run aarch64 guests).
  */
  function CanVirtualize(arch: string, cpu: string, kvm: DeviceNode): (r: bool)
    ensures !kvm.present || !kvm.readable || !kvm.writable ==> !r
    ensures r <==> (kvm.present && kvm.readable && kvm.writable &&
                    ((cpu == "arm64" && arch == "aarch64") || (cpu != "arm64" && arch == cpu)))
  {
    if !kvm.present then false
    else if !kvm.readable then false
    else if !kvm.writable then false
    else MachineType(cpu) == arch
  }

  /** A host accepts at most one guest architecture. */
  lemma AtMostOneArchitecture(a: string, b: string, cpu: string, kvm: DeviceNode)
    requires CanVirtualize(a, cpu, kvm) && CanVirtualize(b, cpu, kvm)
    ensures a == b
  {
  }

  /** The name arm64 itself is never accepted, since the host's is normalised away from it. */
  lemma Arm64NeverAccepted(cpu: string, kvm: DeviceNode)
    ensures !CanVirtualize("arm64", cpu, kvm)
  {
  }

  const MIB: nat := 1024 * 1024
  const GIB: nat := 1024 * 1024 * 1024

  /** What maxRam offers when the system information cannot be read. */
  const FALLBACK_RAM: int := 4096
  /** The memory, in MiB, held back for the host. */
  const RESERVED_RAM: int := 2048
  /** What maxHddSize offers when the file-system statistics cannot be read. */
  const FALLBACK_HDD: int := 32

  /**
    maxRam, from the total memory in bytes (None when sysinfo fails): the
    whole MiB of memory minus 2048 MiB kept for the host, or 4096.
  */
  function MaxRam(totalRam: Option<nat>): (r: int)
    ensures totalRam.None? ==> r == FALLBACK_RAM
    ensures totalRam.Some? ==>
      (r + RESERVED_RAM) * MIB <= totalRam.value < (r + RESERVED_RAM + 1) * MIB
  {
    match totalRam
    case None => FALLBACK_RAM
    case Some(total) => total / 1024 / 1024 - RESERVED_RAM
  }

  /** More memory never lowers the offer. */
  lemma MaxRamMonotonic(a: nat, b: nat)
    requires a <= b
    ensures MaxRam(Some(a)) <= MaxRam(Some(b))
  {
  }

  /** maxCores: one processor fewer than the configured ones. */
  function MaxCores(configured: int): (r: int)
    ensures r + 1 == configured
  {
    configured - 1
  }

  /** With at least one processor, the offer is a count that leaves one for the host. */
  lemma MaxCoresLeavesOne(configured: int)
    requires configured >= 1
    ensures 0 <= MaxCores(configured) < configured
  {
  }

  /** The file-system statistics of the application-data directory. */
  datatype FsStat = FsStat(blockSize: nat, freeBlocks: nat)

  /**
    maxHddSize, from the statistics (None when statvfs fails): the whole
    GiB of free space, or 32.
  */
  function MaxHddSize(stat: Option<FsStat>): (r: int)
    ensures stat.None? ==> r == FALLBACK_HDD
    ensures stat.Some? ==>
      && r >= 0
      && r * GIB <= stat.value.blockSize * stat.value.freeBlocks < (r + 1) * GIB
  {
    match stat
    case None => FALLBACK_HDD
    case Some(s) =>
      var free := s.blockSize * s.freeBlocks;
      free / 1024 / 1024 / 1024
  }

  /** More free blocks never lower the offer. */
  lemma MaxHddSizeMonotonic(blockSize: nat, a: nat, b: nat)
    requires a <= b
    ensures MaxHddSize(Some(FsStat(blockSize, a))) <= MaxHddSize(Some(FsStat(blockSize, b)))
  {
    assert blockSize * a <= blockSize * b;
  }
}

/** The Machine object: a VM definition whose fields the manager and the user interface update. */
module Machines {
  import opened Decimal
  import opened Records

  /** A VM definition as the user interface edits it. */
  class Machine {
    var storage: string
    var name: string
    var arch: string
    var cores: Int32
    var mem: Int32
    var hdd: string
    var dvd: string
    var flash1: string
    var flash2: string
    var hddSize: Int32
    var useVirglrenderer: bool
    var enableFileSharing: bool
    var externalWindowOnly: bool

    /** The machine's fields as a value. */
    function Value(): MachineRecord
      reads this
    {
      MachineRecord(storage, name, arch, cores, mem, hdd, dvd, flash1, flash2, hddSize,
                    useVirglrenderer, enableFileSharing, externalWindowOnly)
    }

    /** A machine with empty text fields, zero numbers and every setting off. */
    constructor ()
      ensures storage == "" && name == "" && arch == "" && hdd == "" && dvd == "" && flash1 == "" && flash2 == ""
      ensures cores == 0 && mem == 0 && hddSize == DEFAULT_HDD_SIZE
      ensures !useVirglrenderer && !enableFileSharing && !externalWindowOnly
    {
      storage, name, arch := "", "", "";
      cores, mem, hddSize := 0, 0, DEFAULT_HDD_SIZE;
      hdd, dvd, flash1, flash2 := "", "", "", "";
      useVirglrenderer, enableFileSharing, externalWindowOnly := false, false, false;
    }

    /** Sets the text fields from r. */
    method LoadText(r: MachineRecord)
      modifies this`storage, this`name, this`arch, this`hdd, this`dvd, this`flash1, this`flash2
      ensures storage == r.storage && name == r.name && arch == r.arch
      ensures hdd == r.hdd && dvd == r.dvd && flash1 == r.flash1 && flash2 == r.flash2
    {
      storage, name, arch := r.storage, r.name, r.arch;
      hdd, dvd, flash1, flash2 := r.hdd, r.dvd, r.flash1, r.flash2;
    }

    /** Sets the processor count, the memory size and the three settings from r. */
    method LoadResources(r: MachineRecord)
      modifies this`cores, this`mem, this`useVirglrenderer, this`enableFileSharing, this`externalWindowOnly
      ensures cores == r.cores && mem == r.mem
      ensures useVirglrenderer == r.useVirglrenderer && enableFileSharing == r.enableFileSharing
      ensures externalWindowOnly == r.externalWindowOnly
    {
      cores, mem := r.cores, r.mem;
      useVirglrenderer, enableFileSharing, externalWindowOnly :=
        r.useVirglrenderer, r.enableFileSharing, r.externalWindowOnly;
    }
  }
}

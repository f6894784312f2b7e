/**
  The VM record format: the key names, the architecture whitelist, the
  decoder of a parsed metadata object (the schema part of
  listEntryForJSON), the encoder (machineToJSON) and the conversion of a
  decoded map back to a machine (fromQml).
*/
module Records {
  import opened Wrappers
  import opened Json
  import opened Variants
  import opened Decimal
  import opened Keys

  const VALID_ARCHES: seq<string> := ["x86_64", "aarch64"]

  /** The keys a metadata object must have, in the order the decoder checks them. */
  const REQUIRED_KEYS: seq<Key> :=
    [Description, Arch, Cores, Mem, Hdd, Dvd, Flash1, Flash2]

  /** Why a metadata file is not listed. */
  datatype DecodeError =
    | FileMissing           // the file does not exist
    | CannotOpen            // it cannot be opened for reading
    | ParseFailed           // its text is not well-formed JSON
    | NotAnObjectDocument   // it is JSON, but not an object
    | Missing(key: Key)  // a required key is absent
    | InvalidArch           // 'arch' is not one of VALID_ARCHES

  /** The fields of a Machine object. */
  datatype MachineRecord = MachineRecord(
    storage: string,
    name: string,
    arch: string,
    cores: Int32,
    mem: Int32,
    hdd: string,
    dvd: string,
    flash1: string,
    flash2: string,
    hddSize: Int32,
    useVirglrenderer: bool,
    enableFileSharing: bool,
    externalWindowOnly: bool)

  /** The value fromQml leaves in the one field it does not set. */
  const DEFAULT_HDD_SIZE: Int32 := 0

  predicate IsRequiredKey(k: Key) {
    k.Description? || k.Arch? || k.Cores? || k.Mem? || k.Hdd? || k.Dvd? || k.Flash1? || k.Flash2?
  }

  predicate IsFlagKey(k: Key) {
    k.UseVirglrenderer? || k.EnableFileSharing? || k.ExternalWindowOnly?
  }

  predicate HasRequiredKeys(o: JsonObject) {
    && Description in o && Arch in o && Cores in o && Mem in o
    && Hdd in o && Dvd in o && Flash1 in o && Flash2 in o
  }

  /** 'arch' is present and, read as a string, on the whitelist. */
  predicate ArchAccepted(o: JsonObject) {
    Arch in o && AsString(o[Arch]) in VALID_ARCHES
  }

  /** The keys every successfully decoded map has. */
  function DecodedKeys(): set<Key> {
    {Path, Storage, Description, Arch, Cores, Mem, Hdd, Dvd, Flash1, Flash2,
     UseVirglrenderer, EnableFileSharing}
  }

  /**
    The entry listEntryForJSON inserts for key k: the caller's path and
    storage, a required field read as a string, a setting read as a boolean
    (false when absent).
  */
  function DecodedValue(path: string, storage: string, o: JsonObject, k: Key): Variant {
    match k
    case Path => VString(path)
    case Storage => VString(storage)
    case UseVirglrenderer => VBool(if UseVirglrenderer in o then AsBool(o[UseVirglrenderer]) else false)
    case EnableFileSharing => VBool(if EnableFileSharing in o then AsBool(o[EnableFileSharing]) else false)
    case ExternalWindowOnly => VBool(if ExternalWindowOnly in o then AsBool(o[ExternalWindowOnly]) else false)
    case _ => VString(if k in o then AsString(o[k]) else "")
  }

  /**
    listEntryForJSON once the file has been read and parsed to an object:
    each required key is checked in REQUIRED_KEYS order (the architecture is
    checked against the whitelist right after it is found). On success the
    map holds the caller's path and storage, the eight fields, the two
    defaulted settings and, only when the object has it, externalWindowOnly
    (the default inserted after the early return is never reached).
  */
  function DecodeObject(path: string, storage: string, o: JsonObject): (r: Result<VariantMap, DecodeError>)
    ensures r.Failure? ==>
      r.error == InvalidArch || (r.error.Missing? && IsRequiredKey(r.error.key) && r.error.key !in o)
    ensures r.Success? ==> HasRequiredKeys(o) && ArchAccepted(o)
  {
    if Description !in o then Failure(Missing(Description))
    else if Arch !in o then Failure(Missing(Arch))
    else if AsString(o[Arch]) !in VALID_ARCHES then Failure(InvalidArch)
    else if Cores !in o then Failure(Missing(Cores))
    else if Mem !in o then Failure(Missing(Mem))
    else if Hdd !in o then Failure(Missing(Hdd))
    else if Dvd !in o then Failure(Missing(Dvd))
    else if Flash1 !in o then Failure(Missing(Flash1))
    else if Flash2 !in o then Failure(Missing(Flash2))
    else
      var keys := DecodedKeys() + (if ExternalWindowOnly in o then {ExternalWindowOnly} else {});
      Success(map k | k in keys :: DecodedValue(path, storage, o, k))
  }

  /**
    What a decoded map holds: exactly the two caller-supplied entries, the
    eight required fields, the two defaulted settings and, only when the
    object has it, externalWindowOnly. 'path' and 'storage' always come from
    the caller, never from the file.
  */
  lemma DecodedKeysExact(path: string, storage: string, o: JsonObject)
    requires DecodeObject(path, storage, o).Success?
    ensures DecodeObject(path, storage, o).value.Keys ==
      DecodedKeys() + (if ExternalWindowOnly in o then {ExternalWindowOnly} else {})
    ensures DecodeObject(path, storage, o).value[Path] == VString(path)
    ensures DecodeObject(path, storage, o).value[Storage] == VString(storage)
  {
  }

  /**
    The values of a decoded map: each required field is the JSON value read
    as a string (so a non-string becomes ""), and each setting is a boolean
    that is false when the object lacks it or holds a non-boolean.
  */
  lemma DecodedValues(path: string, storage: string, o: JsonObject)
    requires DecodeObject(path, storage, o).Success?
    ensures var vm := DecodeObject(path, storage, o).value;
      && (forall k | IsRequiredKey(k) :: k in o && k in vm && vm[k] == VString(AsString(o[k])))
      && vm[UseVirglrenderer] == VBool(UseVirglrenderer in o && AsBool(o[UseVirglrenderer]))
      && vm[EnableFileSharing] == VBool(EnableFileSharing in o && AsBool(o[EnableFileSharing]))
      && (ExternalWindowOnly in o <==> ExternalWindowOnly in vm)
      && (ExternalWindowOnly in o ==> vm[ExternalWindowOnly] == VBool(AsBool(o[ExternalWindowOnly])))
  {
    var vm := DecodeObject(path, storage, o).value;
    forall k | IsRequiredKey(k)
      ensures k in o && k in vm && vm[k] == VString(AsString(o[k]))
    {
      assert k in DecodedKeys();
    }
  }

  /** Decoding succeeds exactly when all eight required keys are present and the architecture is accepted. */
  lemma DecodeSucceedsIffComplete(path: string, storage: string, o: JsonObject)
    ensures DecodeObject(path, storage, o).Success? <==> HasRequiredKeys(o) && ArchAccepted(o)
  {
  }

  /**
    The decoder reports the first check that fails: key i of REQUIRED_KEYS
    is reported missing exactly when it is absent, every earlier key is
    present, and (for the keys after 'arch') the architecture was accepted.
  */
  lemma DecodeReportsFirstMissingKey(path: string, storage: string, o: JsonObject, i: nat)
    requires i < |REQUIRED_KEYS|
    ensures DecodeObject(path, storage, o) == Failure(Missing(REQUIRED_KEYS[i])) <==>
      && REQUIRED_KEYS[i] !in o
      && (forall j | 0 <= j < i :: REQUIRED_KEYS[j] in o)
      && (i > 1 ==> ArchAccepted(o))
  {
    var ks := REQUIRED_KEYS;
    assert ks[0] == Description && ks[1] == Arch && ks[2] == Cores && ks[3] == Mem;
    assert ks[4] == Hdd && ks[5] == Dvd && ks[6] == Flash1 && ks[7] == Flash2;
    var r := DecodeObject(path, storage, o);
    if r == Failure(Missing(ks[i])) {
      forall j | 0 <= j < i
        ensures ks[j] in o
      {
        assert j in {0, 1, 2, 3, 4, 5, 6};
      }
    }
  }

  /** An architecture off the whitelist is reported only once 'description' and 'arch' are both present. */
  lemma DecodeReportsInvalidArch(path: string, storage: string, o: JsonObject)
    ensures DecodeObject(path, storage, o) == Failure(InvalidArch) <==>
      Description in o && Arch in o && !ArchAccepted(o)
  {
  }

  /**
    machineToJSON: all eleven keys, the eight required ones as JSON strings
    (cores and mem as their decimal text) and the three settings as JSON
    booleans. The storage directory is not written, since it is recovered
    from the file's location.
  */
  function Encode(m: MachineRecord): (o: JsonObject)
    ensures forall k :: k in o <==> IsRequiredKey(k) || IsFlagKey(k)
    ensures Cores in o && o[Cores] == JString(Number(m.cores))
    ensures Mem in o && o[Mem] == JString(Number(m.mem))
    ensures Storage !in o && Path !in o
  {
    map k | k in EncodedKeys() :: EncodedValue(m, k)
  }

  function EncodedKeys(): set<Key> {
    {Description, Arch, Cores, Mem, Dvd, Hdd, Flash1, Flash2,
     UseVirglrenderer, EnableFileSharing, ExternalWindowOnly}
  }

  /** The value machineToJSON writes under key k. */
  function EncodedValue(m: MachineRecord, k: Key): JsonValue {
    match k
    case Description => JString(m.name)
    case Arch => JString(m.arch)
    case Cores => JString(Number(m.cores))
    case Mem => JString(Number(m.mem))
    case Dvd => JString(m.dvd)
    case Hdd => JString(m.hdd)
    case Flash1 => JString(m.flash1)
    case Flash2 => JString(m.flash2)
    case UseVirglrenderer => JBool(m.useVirglrenderer)
    case EnableFileSharing => JBool(m.enableFileSharing)
    case ExternalWindowOnly => JBool(m.externalWindowOnly)
    case _ => JOther
  }

  /** The eight required fields are written as JSON strings and the three settings as JSON booleans. */
  lemma EncodedValueKinds(m: MachineRecord)
    ensures forall k | IsRequiredKey(k) :: k in Encode(m) && Encode(m)[k].JString?
    ensures forall k | IsFlagKey(k) :: k in Encode(m) && Encode(m)[k].JBool?
  {
  }

  /** fromQml: a machine built from a decoded map, with QVariant's conversions and defaults. */
  function FromQml(vm: VariantMap): (m: MachineRecord)
    ensures m.hddSize == DEFAULT_HDD_SIZE
    ensures Description in vm && vm[Description].VString? ==> m.name == vm[Description].str
    ensures Arch in vm && vm[Arch].VString? ==> m.arch == vm[Arch].str
    ensures Storage !in vm ==> m.storage == ""
    ensures Description !in vm ==> m.name == ""
    ensures Arch !in vm ==> m.arch == ""
    ensures Hdd !in vm ==> m.hdd == ""
    ensures Dvd !in vm ==> m.dvd == ""
    ensures Flash1 !in vm ==> m.flash1 == ""
    ensures Flash2 !in vm ==> m.flash2 == ""
    ensures Cores !in vm ==> m.cores == 0
    ensures Mem !in vm ==> m.mem == 0
    ensures UseVirglrenderer !in vm ==> !m.useVirglrenderer
    ensures EnableFileSharing !in vm ==> !m.enableFileSharing
    ensures ExternalWindowOnly !in vm ==> !m.externalWindowOnly
  {
    MachineRecord(
      storage := ToStr(Lookup(vm, Storage)),
      name := ToStr(Lookup(vm, Description)),
      arch := ToStr(Lookup(vm, Arch)),
      cores := Variants.ToInt(Lookup(vm, Cores)),
      mem := Variants.ToInt(Lookup(vm, Mem)),
      hdd := ToStr(Lookup(vm, Hdd)),
      dvd := ToStr(Lookup(vm, Dvd)),
      flash1 := ToStr(Lookup(vm, Flash1)),
      flash2 := ToStr(Lookup(vm, Flash2)),
      hddSize := DEFAULT_HDD_SIZE,
      useVirglrenderer := ToBool(Lookup(vm, UseVirglrenderer)),
      enableFileSharing := ToBool(Lookup(vm, EnableFileSharing)),
      externalWindowOnly := ToBool(Lookup(vm, ExternalWindowOnly)))
  }

  /** An encoded machine with a whitelisted architecture always decodes. */
  lemma EncodedDecodes(path: string, m: MachineRecord)
    requires m.arch in VALID_ARCHES
    ensures DecodeObject(path, m.storage, Encode(m)).Success?
  {
    var o := Encode(m);
    assert HasRequiredKeys(o) by {
      assert IsRequiredKey(Description) && IsRequiredKey(Arch) && IsRequiredKey(Hdd) && IsRequiredKey(Dvd);
      assert IsRequiredKey(Flash1) && IsRequiredKey(Flash2);
    }
  }

  /** The text fields of a decoded encoding are the machine's own. */
  lemma DecodedEncodedText(path: string, m: MachineRecord, vm: VariantMap)
    requires DecodeObject(path, m.storage, Encode(m)) == Success(vm)
    ensures Lookup(vm, Storage) == VString(m.storage)
    ensures Lookup(vm, Description) == VString(m.name)
    ensures Lookup(vm, Arch) == VString(m.arch)
    ensures Lookup(vm, Hdd) == VString(m.hdd)
  {
  }

  /** The image fields of a decoded encoding are the machine's own. */
  lemma DecodedEncodedImages(path: string, m: MachineRecord, vm: VariantMap)
    requires DecodeObject(path, m.storage, Encode(m)) == Success(vm)
    ensures Lookup(vm, Dvd) == VString(m.dvd)
    ensures Lookup(vm, Flash1) == VString(m.flash1)
    ensures Lookup(vm, Flash2) == VString(m.flash2)
  {
  }

  /** The numeric fields of a decoded encoding are the decimal text of the machine's own. */
  lemma DecodedEncodedNumbers(path: string, m: MachineRecord, vm: VariantMap)
    requires DecodeObject(path, m.storage, Encode(m)) == Success(vm)
    ensures Lookup(vm, Cores) == VString(Number(m.cores))
    ensures Lookup(vm, Mem) == VString(Number(m.mem))
  {
  }

  /** The settings of a decoded encoding are the machine's own. */
  lemma DecodedEncodedFlags(path: string, m: MachineRecord, vm: VariantMap)
    requires DecodeObject(path, m.storage, Encode(m)) == Success(vm)
    ensures Lookup(vm, UseVirglrenderer) == VBool(m.useVirglrenderer)
    ensures Lookup(vm, EnableFileSharing) == VBool(m.enableFileSharing)
    ensures Lookup(vm, ExternalWindowOnly) == VBool(m.externalWindowOnly)
  {
  }

  /**
    Round trip: encoding a machine with a whitelisted architecture, decoding
    the object with the machine's own storage directory, and converting back
    with fromQml reproduces every field but hddSize, which is not persisted.
  */
  lemma RoundTrip(path: string, m: MachineRecord)
    requires m.arch in VALID_ARCHES
    ensures DecodeObject(path, m.storage, Encode(m)).Success?
    ensures FromQml(DecodeObject(path, m.storage, Encode(m)).value) == m.(hddSize := DEFAULT_HDD_SIZE)
  {
    EncodedDecodes(path, m);
    var vm := DecodeObject(path, m.storage, Encode(m)).value;
    DecodedEncodedText(path, m, vm);
    DecodedEncodedImages(path, m, vm);
    DecodedEncodedNumbers(path, m, vm);
    DecodedEncodedFlags(path, m, vm);
    NumberRoundTrip(m.cores);
    NumberRoundTrip(m.mem);
  }

  /** An encoded machine whose architecture is off the whitelist is always rejected as such. */
  lemma EncodedInvalidArchRejected(path: string, m: MachineRecord)
    requires m.arch !in VALID_ARCHES
    ensures DecodeObject(path, m.storage, Encode(m)) == Failure(InvalidArch)
  {
  }
}

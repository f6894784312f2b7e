/**
  Reading the catalog: listEntryForJSON on one metadata file, and the list
  refreshVMs builds from the metadata files the directory scan yields.
*/
module Catalog {
  import opened Wrappers
  import opened Variants
  import opened Records
  import opened Files
  import opened Keys

  /** The name of every VM's metadata file. */
  const INFO_NAME: string := "info.json"

  /**
    listEntryForJSON: the file must exist, open for reading and parse to a
    JSON object; the object is then decoded with the caller's path and
    storage directory.
  */
  function ListEntry(env: Env, files: FileMap, path: string, storage: string): (r: Result<VariantMap, DecodeError>)
    ensures r.Success? ==> path in files && env.readable(path) && ReadDocument(env, files[path]).Object?
    ensures r.Success? ==>
      && Path in r.value && r.value[Path] == VString(path)
      && Storage in r.value && r.value[Storage] == VString(storage)
  {
    if path !in files then Failure(FileMissing)
    else if !env.readable(path) then Failure(CannotOpen)
    else match ReadDocument(env, files[path])
      case Malformed => Failure(ParseFailed)
      case NotAnObject => Failure(NotAnObjectDocument)
      case Object(o) => DecodeObject(path, storage, o)
  }

  /**
    The file-level checks come first and in order: a missing file, then an
    unreadable one, then text that is not JSON, then a document that is not
    an object; an object is decoded by the schema rules and nothing else.
  */
  lemma ListEntryChecks(env: Env, files: FileMap, path: string, storage: string)
    ensures ListEntry(env, files, path, storage) == Failure(FileMissing) <==> path !in files
    ensures ListEntry(env, files, path, storage) == Failure(CannotOpen) <==>
      path in files && !env.readable(path)
    ensures ListEntry(env, files, path, storage) == Failure(ParseFailed) <==>
      path in files && env.readable(path) && ReadDocument(env, files[path]).Malformed?
    ensures ListEntry(env, files, path, storage) == Failure(NotAnObjectDocument) <==>
      path in files && env.readable(path) && ReadDocument(env, files[path]).NotAnObject?
    ensures path in files && env.readable(path) && ReadDocument(env, files[path]).Object? ==>
      ListEntry(env, files, path, storage) == DecodeObject(path, storage, ReadDocument(env, files[path]).root)
  {
    var r := ListEntry(env, files, path, storage);
    if path in files && env.readable(path) && ReadDocument(env, files[path]).Object? {
      var o := ReadDocument(env, files[path]).root;
      DecodeSucceedsIffComplete(path, storage, o);
      assert r == DecodeObject(path, storage, o);
    }
  }

  /** refreshVMs on one scanned file: its storage directory is the directory that holds it. */
  function ScanEntry(env: Env, files: FileMap, path: string): (r: Result<VariantMap, DecodeError>)
    ensures r.Success? ==> Storage in r.value && r.value[Storage] == VString(Dirname(path))
  {
    ListEntry(env, files, path, Dirname(path))
  }

  /** The maps refreshVMs keeps for the scanned files, in scan order, skipping those that fail. */
  function DecodedEntries(env: Env, files: FileMap, scanned: seq<string>): (r: seq<VariantMap>)
    ensures |r| <= |scanned|
  {
    if |scanned| == 0 then []
    else
      var rest := DecodedEntries(env, files, scanned[..|scanned| - 1]);
      match ScanEntry(env, files, scanned[|scanned| - 1])
      case Success(vm) => rest + [vm]
      case Failure(_) => rest
  }

  /** The list for a concatenated scan is the two lists concatenated: order is kept. */
  lemma {:induction false} DecodedEntriesAppend(env: Env, files: FileMap, a: seq<string>, b: seq<string>)
    ensures DecodedEntries(env, files, a + b) ==
      DecodedEntries(env, files, a) + DecodedEntries(env, files, b)
    decreases |b|
  {
    if |b| == 0 {
      assert a + b == a;
    } else {
      var b' := b[..|b| - 1];
      assert (a + b)[..|a + b| - 1] == a + b';
      assert (a + b)[|a + b| - 1] == b[|b| - 1];
      DecodedEntriesAppend(env, files, a, b');
    }
  }

  /** A file that fails to decode contributes nothing; one that decodes contributes its map. */
  lemma DecodedEntriesSingle(env: Env, files: FileMap, p: string)
    ensures ScanEntry(env, files, p).Failure? ==> DecodedEntries(env, files, [p]) == []
    ensures ScanEntry(env, files, p).Success? ==>
      DecodedEntries(env, files, [p]) == [ScanEntry(env, files, p).value]
  {
    assert [p][..0] == [];
  }

  /** A failing entry is skipped without disturbing what comes before or after it. */
  lemma FailedEntrySkipped(env: Env, files: FileMap, a: seq<string>, p: string, b: seq<string>)
    requires ScanEntry(env, files, p).Failure?
    ensures DecodedEntries(env, files, a + [p] + b) == DecodedEntries(env, files, a + b)
  {
    DecodedEntriesAppend(env, files, a + [p], b);
    DecodedEntriesAppend(env, files, a, [p]);
    DecodedEntriesSingle(env, files, p);
    DecodedEntriesAppend(env, files, a, b);
  }

  /** No more maps than scanned files, and exactly as many when every file decodes. */
  lemma {:induction false} DecodedEntriesLength(env: Env, files: FileMap, scanned: seq<string>)
    ensures |DecodedEntries(env, files, scanned)| <= |scanned|
    ensures (forall i | 0 <= i < |scanned| :: ScanEntry(env, files, scanned[i]).Success?) ==>
      |DecodedEntries(env, files, scanned)| == |scanned|
  {
    if |scanned| > 0 {
      var init := scanned[..|scanned| - 1];
      DecodedEntriesLength(env, files, init);
      if forall i | 0 <= i < |scanned| :: ScanEntry(env, files, scanned[i]).Success? {
        assert forall i | 0 <= i < |init| :: init[i] == scanned[i];
      }
    }
  }

  /** A map is listed exactly when some scanned file decodes to it. */
  lemma {:induction false} DecodedEntriesMembership(env: Env, files: FileMap, scanned: seq<string>, vm: VariantMap)
    ensures vm in DecodedEntries(env, files, scanned) <==>
      exists i | 0 <= i < |scanned| :: ScanEntry(env, files, scanned[i]) == Success(vm)
  {
    if |scanned| > 0 {
      var init := scanned[..|scanned| - 1];
      var last := |scanned| - 1;
      DecodedEntriesMembership(env, files, init, vm);
      if vm in DecodedEntries(env, files, scanned) {
        if vm in DecodedEntries(env, files, init) {
          var i :| 0 <= i < |init| && ScanEntry(env, files, init[i]) == Success(vm);
          assert scanned[i] == init[i];
        } else {
          assert ScanEntry(env, files, scanned[last]) == Success(vm);
        }
      }
      if exists i | 0 <= i < |scanned| :: ScanEntry(env, files, scanned[i]) == Success(vm) {
        var i :| 0 <= i < |scanned| && ScanEntry(env, files, scanned[i]) == Success(vm);
        if i < last {
          assert init[i] == scanned[i];
        }
      }
    }
  }

  /**
    Every listed map carries a whitelisted architecture and, under 'path',
    the metadata file it came from.
  */
  lemma DecodedEntriesWellFormed(env: Env, files: FileMap, scanned: seq<string>)
    ensures forall vm: VariantMap | vm in DecodedEntries(env, files, scanned) ::
      && Path in vm && vm[Path].VString? && vm[Path].str in scanned
      && Arch in vm && vm[Arch].VString? && vm[Arch].str in VALID_ARCHES
  {
    forall vm: VariantMap | vm in DecodedEntries(env, files, scanned)
      ensures && Path in vm && vm[Path].VString? && vm[Path].str in scanned
              && Arch in vm && vm[Arch].VString? && vm[Arch].str in VALID_ARCHES
    {
      DecodedEntriesMembership(env, files, scanned, vm);
      var i :| 0 <= i < |scanned| && ScanEntry(env, files, scanned[i]) == Success(vm);
      var p := scanned[i];
      var o := ReadDocument(env, files[p]).root;
      DecodedKeysExact(p, Dirname(p), o);
      DecodedValues(p, Dirname(p), o);
    }
  }
}

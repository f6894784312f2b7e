/**
  The keys of the VM record format. Each of the thirteen names the code uses
  is a constructor; any other key of a metadata object is Other(name), with
  a name that is not one of the thirteen (Canonical). The spelling of every
  key is KeyName, and distinct canonical keys are spelled differently, so a
  map whose keys are all canonical stands for a map over the key strings.
  The map types of the model do not require this: a map holding both a
  named key and Other of its spelling stands for no real object.
*/
module Keys {
  datatype Key =
    | Path | Storage | Description | Arch | Cores | Mem | Dvd | Hdd | Flash1 | Flash2
    | EnableFileSharing | UseVirglrenderer | ExternalWindowOnly
    | Other(name: string)

  /** The spellings of the named keys. */
  const KNOWN_NAMES: seq<string> := [
    "path", "storage", "description", "arch", "cores", "mem", "dvd", "hdd", "flash1", "flash2",
    "enableFileSharing", "useVirglrenderer", "externalWindowOnly"]

  /** Other is used only for names that are not among the thirteen. */
  predicate Canonical(k: Key) {
    k.Other? ==> k.name !in KNOWN_NAMES
  }

  function KeyName(k: Key): (s: string)
    ensures !k.Other? ==> s in KNOWN_NAMES
  {
    match k
    case Path => "path"
    case Storage => "storage"
    case Description => "description"
    case Arch => "arch"
    case Cores => "cores"
    case Mem => "mem"
    case Dvd => "dvd"
    case Hdd => "hdd"
    case Flash1 => "flash1"
    case Flash2 => "flash2"
    case EnableFileSharing => "enableFileSharing"
    case UseVirglrenderer => "useVirglrenderer"
    case ExternalWindowOnly => "externalWindowOnly"
    case Other(name) => name
  }

  /** The index of a named key's spelling in KNOWN_NAMES. */
  function KnownIndex(k: Key): (i: nat)
    requires !k.Other?
    ensures i < |KNOWN_NAMES| && KNOWN_NAMES[i] == KeyName(k)
  {
    match k
    case Path => 0
    case Storage => 1
    case Description => 2
    case Arch => 3
    case Cores => 4
    case Mem => 5
    case Dvd => 6
    case Hdd => 7
    case Flash1 => 8
    case Flash2 => 9
    case EnableFileSharing => 10
    case UseVirglrenderer => 11
    case ExternalWindowOnly => 12
  }

  lemma KnownNamesDistinct(i: nat, j: nat)
    requires i < j < |KNOWN_NAMES|
    ensures KNOWN_NAMES[i] != KNOWN_NAMES[j]
  {
    assert KNOWN_NAMES[0][0] == 'p' && KNOWN_NAMES[3][0] == 'a';
    assert KNOWN_NAMES[5][0] == 'm' && KNOWN_NAMES[6][0] == 'd' && KNOWN_NAMES[7][0] == 'h';
    assert KNOWN_NAMES[8][5] == '1' && KNOWN_NAMES[9][5] == '2';
  }

  /** Different canonical keys have different spellings. */
  lemma KeyNameInjective(a: Key, b: Key)
    requires Canonical(a) && Canonical(b)
    requires KeyName(a) == KeyName(b)
    ensures a == b
  {
    if !a.Other? && !b.Other? {
      var i, j := KnownIndex(a), KnownIndex(b);
      if i < j {
        KnownNamesDistinct(i, j);
      } else if j < i {
        KnownNamesDistinct(j, i);
      }
    }
  }
}

/**
  An abstract view of the host the manager runs on: a map from absolute
  file paths to contents, the directories and tools it is given, and the
  library operations on files it uses (exists, remove, copy, open,
  removeRecursively, the directory part of a path).
*/
module Files {
  import opened Wrappers
  import opened Json

  type Bytes = seq<bv8>

  /**
    What a file holds: raw bytes, or the text the JSON printer produces for
    an object (reading that text back gives the object again).
  */
  datatype Content = Blob(bytes: Bytes) | Document(obj: JsonObject)

  /** The regular files of the host, by absolute path. Directories are implicit. */
  type FileMap = map<string, Content>

  /**
    What one run of the disk-image tool gives: the exit code QProcess
    reports, and the image left behind, if any. An exit code of 0 does not
    promise an image: QProcess also reports 0 for a tool that never started
    and for one still running when waitForFinished gives up.
  */
  datatype ToolRun = ToolRun(exitCode: int, image: Option<Bytes>)

  /**
    The host as the manager sees it: the application-data directory, the
    application's own directory, per-path permissions, the JSON parser on
    raw bytes, and the disk-image tool run as (program, arguments).
  */
  datatype Env = Env(
    dataDir: string,
    appDir: string,
    readable: string -> bool,
    writable: string -> bool,
    removable: string -> bool,
    parse: Bytes -> JsonDoc,
    qemuImg: (string, seq<string>) -> ToolRun)

  /** The document a file's content parses to. */
  function ReadDocument(env: Env, c: Content): (d: JsonDoc)
    ensures c.Document? ==> d == Object(c.obj)
  {
    match c
    case Blob(b) => env.parse(b)
    case Document(o) => Object(o)
  }

  /** The path of the entry called name inside directory dir. */
  function Child(dir: string, name: string): string {
    dir + "/" + name
  }

  /** The directory part of a path: everything before its last '/' ("" when it has none). */
  function Dirname(p: string): string {
    if |p| == 0 then ""
    else if p[|p| - 1] == '/' then p[..|p| - 1]
    else Dirname(p[..|p| - 1])
  }

  /** The directory containing dir/name, for a plain name, is dir. */
  lemma {:induction false} DirnameOfChild(dir: string, name: string)
    requires '/' !in name
    ensures Dirname(Child(dir, name)) == dir
  {
    var p := Child(dir, name);
    if |name| == 0 {
      assert p[..|p| - 1] == dir;
    } else {
      var shorter := name[..|name| - 1];
      assert p[..|p| - 1] == Child(dir, shorter);
      assert p[|p| - 1] == name[|name| - 1];
      assert '/' !in shorter by {
        forall i | 0 <= i < |shorter| ensures shorter[i] != '/' {
          assert shorter[i] == name[i];
        }
      }
      DirnameOfChild(dir, shorter);
    }
  }

  /** Two paths whose tails differ are different paths. */
  lemma SuffixesDiffer(p: string, x: string, q: string, y: string)
    requires |x| <= |y| && y[|y| - |x|..] != x
    ensures p + x != q + y
  {
    assert (p + x)[|p + x| - |x|..] == x;
  }

  /** p lies somewhere below directory dir. */
  predicate IsUnder(p: string, dir: string) {
    |dir| < |p| && p[..|dir| + 1] == dir + "/"
  }

  /** Every child path dir/name lies below dir. */
  lemma ChildIsUnder(dir: string, name: string)
    ensures IsUnder(Child(dir, name), dir)
  {
    assert Child(dir, name)[..|dir| + 1] == dir + "/";
  }

  /** QFile::remove on an existing file: it goes only when the host allows it. */
  function RemoveExisting(env: Env, files: FileMap, p: string): (r: FileMap)
    ensures p in files && env.removable(p) ==> p !in r
    ensures forall q | q in r :: q in files && r[q] == files[q]
    ensures forall q | q in files && q != p :: q in r
    ensures p in r <==> p in files && !env.removable(p)
  {
    if p in files && env.removable(p) then files - {p} else files
  }

  /**
    When QFile::copy succeeds: the source exists and can be read, and the
    destination does not exist yet and can be created.
  */
  predicate CopyAllowed(env: Env, files: FileMap, src: string, dst: string) {
    src in files && env.readable(src) && dst !in files && env.writable(dst)
  }

  /** The result of one file-system step: whether it succeeded and the files after it. */
  datatype Step = Step(ok: bool, files: FileMap)

  /**
    Removing an existing destination (a failed removal is only logged) and
    then copying src over it, as both EFI resets do.
  */
  function ReplaceFile(env: Env, files: FileMap, src: string, dst: string): (r: Step)
    ensures r.ok ==> src in files && dst in r.files && r.files[dst] == files[src]
    ensures forall q | q != dst :: (q in r.files <==> q in files)
    ensures forall q | q != dst && q in files :: r.files[q] == files[q]
  {
    var cleared := RemoveExisting(env, files, dst);
    if CopyAllowed(env, cleared, src, dst) then Step(true, cleared[dst := cleared[src]])
    else Step(false, cleared)
  }

  /**
    The replacement succeeds exactly when the source is a different,
    readable file, the destination can be created, and an existing
    destination can be removed; on success the destination holds the
    source's content and no other file changes, on failure at most the old
    destination is gone.
  */
  lemma ReplaceFileMeaning(env: Env, files: FileMap, src: string, dst: string)
    ensures var s := ReplaceFile(env, files, src, dst);
      && (s.ok <==>
           src in files && src != dst && env.readable(src) && env.writable(dst)
           && (dst in files ==> env.removable(dst)))
      && (s.ok ==> dst in s.files && s.files[dst] == files[src])
      && (!s.ok ==> s.files == files || s.files == files - {dst})
      && (forall q | q != dst :: (q in s.files <==> q in files))
      && (forall q | q != dst && q in files :: s.files[q] == files[q])
  {
  }

  /** Doing the replacement a second time leaves the files as the first time did. */
  lemma ReplaceFileIdempotent(env: Env, files: FileMap, src: string, dst: string)
    ensures var once := ReplaceFile(env, files, src, dst);
      ReplaceFile(env, once.files, src, dst).files == once.files
  {
    var once := ReplaceFile(env, files, src, dst);
    var twice := ReplaceFile(env, once.files, src, dst);
    ReplaceFileMeaning(env, files, src, dst);
    ReplaceFileMeaning(env, once.files, src, dst);
    if twice.ok {
      assert once.files[dst] == files[src] == once.files[src];
      assert twice.files == once.files[dst := once.files[src]];
    } else if dst in once.files {
      assert twice.files == once.files;
    } else {
      assert twice.files == once.files - {dst} == once.files;
    }
  }

  /**
    QDir::removeRecursively: every file below dir that the host lets go is
    removed, the rest stay, and the result says whether all went.
  */
  function RemoveTree(env: Env, files: FileMap, dir: string): (r: Step)
    ensures forall p | p in r.files :: p in files && r.files[p] == files[p]
    ensures forall p | p in files && !IsUnder(p, dir) :: p in r.files
    ensures r.ok ==> forall p | p in r.files :: !IsUnder(p, dir)
  {
    Step(
      forall p | p in files && IsUnder(p, dir) :: env.removable(p),
      map p | p in files && !(IsUnder(p, dir) && env.removable(p)) :: files[p])
  }

  /**
    After a recursive removal no file below dir remains when it succeeded,
    the ones that stay below it are those the host refused, and the files
    outside dir are untouched.
  */
  lemma RemoveTreeMeaning(env: Env, files: FileMap, dir: string)
    ensures var s := RemoveTree(env, files, dir);
      && (s.ok ==> forall p | p in s.files :: !IsUnder(p, dir))
      && (forall p | p in s.files && IsUnder(p, dir) :: !env.removable(p))
      && (forall p | p in files && !IsUnder(p, dir) :: p in s.files && s.files[p] == files[p])
      && (forall p | p in s.files :: p in files && s.files[p] == files[p])
  {
  }

  /** Removing a tree a second time changes nothing more. */
  lemma RemoveTreeIdempotent(env: Env, files: FileMap, dir: string)
    ensures var once := RemoveTree(env, files, dir).files;
      RemoveTree(env, once, dir).files == once
  {
  }
}

// The file services (`src/services/file.ts`): the allow-list check every
// one of them makes before it touches the filesystem, and what each does
// with the check's outcome and the filesystem's. The filesystem calls
// themselves are parameters: how they ended.
module FileService {
  import opened Common
  import opened NodePath
  import S = Service

  datatype Operation = Read | Write
  {
    function Name(): string
    {
      if Read? then "read" else "write"
    }
  }

  /** `FileAllow`: the prefixes a path may be read under and written under. */
  datatype Allow = Allow(readPathPrefixes: seq<string>, writePathPrefixes: seq<string>)
  {
    /** `allow[`${operation}PathPrefixes`]`. */
    function Prefixes(op: Operation): seq<string>
    {
      if op.Read? then readPathPrefixes else writePathPrefixes
    }
  }

  function NotAbsoluteMessage(path: string): string
  {
    "Path is not absolute: " + S.Quoted(path)
  }

  function NotNormalizedMessage(path: string): string
  {
    "Path is not normalized: " + S.Quoted(path)
  }

  function NotAllowedMessage(op: Operation, path: string, prefixes: seq<string>): string
  {
    "Cannot " + op.Name() + " path " + S.Quoted(path) + " because it does not start with an allowed prefix: " + QuotedList(prefixes)
  }

  /**
   * What `assertAllowed(allow, operation, path)` does: it throws if the
   * path is not absolute, else if it is not normalized, else if no
   * allowed prefix is a prefix of it (as strings: `"/a"` allows `"/ab"`);
   * otherwise it returns.
   */
  function Allowed(lib: PathLib, allow: Allow, op: Operation, path: string): (r: Completion<(), S.Exception>)
    ensures r.Returned? <==> lib.isAbsolute(path) && lib.normalize(path) == path && SomePrefix(allow.Prefixes(op), path)
    ensures !lib.isAbsolute(path) ==> r == Threw(S.Error(NotAbsoluteMessage(path)))
    ensures lib.isAbsolute(path) && lib.normalize(path) != path ==> r == Threw(S.Error(NotNormalizedMessage(path)))
    ensures lib.isAbsolute(path) && lib.normalize(path) == path && !SomePrefix(allow.Prefixes(op), path) ==>
      r == Threw(S.Error(NotAllowedMessage(op, path, allow.Prefixes(op))))
  {
    if !lib.isAbsolute(path) then Threw(S.Error(NotAbsoluteMessage(path)))
    else if lib.normalize(path) != path then Threw(S.Error(NotNormalizedMessage(path)))
    else if SomePrefix(allow.Prefixes(op), path) then Returned(())
    else Threw(S.Error(NotAllowedMessage(op, path, allow.Prefixes(op))))
  }

  /** `assertAllowed`, with its loop over the prefixes that returns at the first match. */
  method AssertAllowed(lib: PathLib, allow: Allow, op: Operation, path: string) returns (r: Completion<(), S.Exception>)
    ensures r == Allowed(lib, allow, op, path)
  {
    if !lib.isAbsolute(path) {
      return Threw(S.Error(NotAbsoluteMessage(path)));
    }
    if lib.normalize(path) != path {
      return Threw(S.Error(NotNormalizedMessage(path)));
    }
    var prefixes := allow.Prefixes(op);
    for k := 0 to |prefixes|
      invariant forall j :: 0 <= j < k ==> !StartsWith(path, prefixes[j])
    {
      if StartsWith(path, prefixes[k]) {
        return Returned(());
      }
    }
    r := Threw(S.Error(NotAllowedMessage(op, path, prefixes)));
  }

  /** Allowing more prefixes never turns an allowed path into a refused one. */
  lemma AllowedMonotone(lib: PathLib, allow: Allow, more: Allow, op: Operation, path: string)
    requires forall k :: 0 <= k < |allow.Prefixes(op)| ==> allow.Prefixes(op)[k] in more.Prefixes(op)
    ensures Allowed(lib, allow, op, path).Returned? ==> Allowed(lib, more, op, path).Returned?
  {
    if Allowed(lib, allow, op, path).Returned? {
      var k :| 0 <= k < |allow.Prefixes(op)| && StartsWith(path, allow.Prefixes(op)[k]);
      var j :| 0 <= j < |more.Prefixes(op)| && more.Prefixes(op)[j] == allow.Prefixes(op)[k];
      assert StartsWith(path, more.Prefixes(op)[j]);
    }
  }

  /** The boundary is not checked: a prefix without a trailing separator allows sibling names. */
  lemma PrefixIsRaw(lib: PathLib)
    requires lib.isAbsolute("/srvx/f") && lib.normalize("/srvx/f") == "/srvx/f"
    ensures Allowed(lib, Allow(["/srv"], []), Read, "/srvx/f") == Returned(())
  {
    assert StartsWith("/srvx/f", Allow(["/srv"], []).Prefixes(Read)[0]);
  }

  // ---- the four services ----

  /** A file service's id and purity. */
  datatype Definition = Definition(id: string, pure: bool)

  datatype Kind = CopyFile | DeleteFile | ReadTextFile | WriteTextFile

  /** The definitions `copyFileService` … `writeTextFileService`: none of them is pure. */
  function DefinitionOf(kind: Kind): (d: Definition)
    ensures !d.pure
    ensures kind.CopyFile? ==> d.id == "FileCopy"
    ensures kind.DeleteFile? ==> d.id == "FileDelete"
    ensures kind.ReadTextFile? ==> d.id == "FileReadText"
    ensures kind.WriteTextFile? ==> d.id == "FileWriteText"
  {
    match kind
    case CopyFile => Definition("FileCopy", false)
    case DeleteFile => Definition("FileDelete", false)
    case ReadTextFile => Definition("FileReadText", false)
    case WriteTextFile => Definition("FileWriteText", false)
  }

  /** The four ids are distinct. */
  lemma DefinitionIdsDistinct(a: Kind, b: Kind)
    requires a != b
    ensures DefinitionOf(a).id != DefinitionOf(b).id
  {
  }

  /**
   * `copyFileService.call`: the source is checked for reading, then the
   * destination for writing, and only then is the copy made (`io`, how
   * creating the parent and copying ended).
   */
  function CopyFileCall(lib: PathLib, allow: Allow, src: string, dest: string, io: Completion<(), S.Exception>): (r: Completion<S.Value, S.Exception>)
    ensures Allowed(lib, allow, Read, src).Threw? ==> r == Threw(Allowed(lib, allow, Read, src).error)
    ensures Allowed(lib, allow, Read, src).Returned? && Allowed(lib, allow, Write, dest).Threw? ==> r == Threw(Allowed(lib, allow, Write, dest).error)
    ensures Allowed(lib, allow, Read, src).Returned? && Allowed(lib, allow, Write, dest).Returned? ==>
      r == if io.Returned? then Returned(S.Null) else Threw(io.error)
  {
    match Allowed(lib, allow, Read, src)
    case Threw(e) => Threw(e)
    case Returned(_) =>
      match Allowed(lib, allow, Write, dest)
      case Threw(e) => Threw(e)
      case Returned(_) => if io.Returned? then Returned(S.Null) else Threw(io.error)
  }

  /** How `fs.unlink` ended: the file is gone, or an error, with its `code` if it has one. */
  datatype Unlink = Unlinked | UnlinkFailed(code: Option<string>, error: S.Exception)

  /**
   * `deleteFileService.call`: the path is checked for writing; then an
   * unlink error whose code is `ENOENT` (the file does not exist) is
   * ignored and any other is rethrown.
   */
  function DeleteFileCall(lib: PathLib, allow: Allow, path: string, unlink: Unlink): (r: Completion<S.Value, S.Exception>)
    ensures Allowed(lib, allow, Write, path).Threw? ==> r == Threw(Allowed(lib, allow, Write, path).error)
    ensures Allowed(lib, allow, Write, path).Returned? ==>
      (r.Threw? <==> unlink.UnlinkFailed? && unlink.code != Some("ENOENT")) &&
      (r.Threw? ==> r.error == unlink.error) &&
      (r.Returned? ==> r.value == S.Null)
  {
    match Allowed(lib, allow, Write, path)
    case Threw(e) => Threw(e)
    case Returned(_) =>
      match unlink
      case Unlinked => Returned(S.Null)
      case UnlinkFailed(code, e) => if code == Some("ENOENT") then Returned(S.Null) else Threw(e)
  }

  /** `readTextFileService.call`: the path is checked for reading, then read (`read`, how reading ended). */
  function ReadTextFileCall(lib: PathLib, allow: Allow, path: string, read: Completion<string, S.Exception>): (r: Completion<S.Value, S.Exception>)
    ensures Allowed(lib, allow, Read, path).Threw? ==> r == Threw(Allowed(lib, allow, Read, path).error)
    ensures Allowed(lib, allow, Read, path).Returned? ==> r == if read.Returned? then Returned(S.Str(read.value)) else Threw(read.error)
  {
    match Allowed(lib, allow, Read, path)
    case Threw(e) => Threw(e)
    case Returned(_) => if read.Returned? then Returned(S.Str(read.value)) else Threw(read.error)
  }

  /** `writeTextFileService.call`: the path is checked for writing, then written (`io`, how creating the parent and writing ended). */
  function WriteTextFileCall(lib: PathLib, allow: Allow, path: string, io: Completion<(), S.Exception>): (r: Completion<S.Value, S.Exception>)
    ensures Allowed(lib, allow, Write, path).Threw? ==> r == Threw(Allowed(lib, allow, Write, path).error)
    ensures Allowed(lib, allow, Write, path).Returned? ==> r == if io.Returned? then Returned(S.Null) else Threw(io.error)
  {
    match Allowed(lib, allow, Write, path)
    case Threw(e) => Threw(e)
    case Returned(_) => if io.Returned? then Returned(S.Null) else Threw(io.error)
  }

  /** A refused path never reaches the filesystem: whatever the I/O would have done, the call throws the check's error. */
  lemma RefusedPathNeverTouchesDisk(lib: PathLib, allow: Allow, path: string, u1: Unlink, u2: Unlink)
    requires Allowed(lib, allow, Write, path).Threw?
    ensures DeleteFileCall(lib, allow, path, u1) == DeleteFileCall(lib, allow, path, u2)
  {
  }
}

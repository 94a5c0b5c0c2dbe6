// Project paths (`src/util/filesystem.ts`): a project path is "/" followed
// by a path relative to the project root. Resolving one for reading only
// checks the leading "/"; resolving one for writing also requires the
// result to lie under one of the writable directories.
module ProjectPaths {
  import opened Common
  import opened NodePath
  import S = Service

  /** `WRITABLE_PATH_PREFIXES`. */
  const WritablePathPrefixes: seq<string> := ["/public/", "/public-preview/"]

  function NoLeadingSlashMessage(projectPath: string): string
  {
    "Project path does not start with /: " + S.Quoted(projectPath)
  }

  function NotWritableMessage(projectPath: string): string
  {
    "Cannot access path " + S.Quoted(projectPath) + " because it does not start with one of the writable path prefixes: " +
    QuotedList(WritablePathPrefixes)
  }

  /** Each writable prefix, with the project root in front. */
  function WritableUnder(root: string): (r: seq<string>)
    ensures r == [root + "/public/", root + "/public-preview/"]
  {
    [root + WritablePathPrefixes[0], root + WritablePathPrefixes[1]]
  }

  /**
   * `resolveProjectPath(projectPath, forWrite)`: a path without a leading
   * "/" throws; otherwise the rest of it is resolved against the root, and
   * for a write the result must start with the root followed by
   * "/public/" or "/public-preview/". A read is not checked further.
   */
  function ResolveProjectPath(lib: PathLib, root: string, projectPath: string, forWrite: bool): (r: Completion<string, S.Exception>)
    ensures !StartsWith(projectPath, "/") ==> r == Threw(S.Error(NoLeadingSlashMessage(projectPath)))
    ensures StartsWith(projectPath, "/") ==>
      var resolved := lib.resolve(root, projectPath[1..]);
      (r.Returned? <==> !forWrite || SomePrefix(WritableUnder(root), resolved)) &&
      (r.Returned? ==> r.value == resolved) &&
      (r.Threw? ==> r.error == S.Error(NotWritableMessage(projectPath)))
  {
    if !StartsWith(projectPath, "/") then Threw(S.Error(NoLeadingSlashMessage(projectPath)))
    else
      var resolved := lib.resolve(root, projectPath[1..]);
      if forWrite && !SomePrefix(WritableUnder(root), resolved) then Threw(S.Error(NotWritableMessage(projectPath)))
      else Returned(resolved)
  }

  /** Whatever resolves for writing resolves for reading, to the same path. */
  lemma WriteResolutionImpliesRead(lib: PathLib, root: string, projectPath: string)
    ensures ResolveProjectPath(lib, root, projectPath, true).Returned? ==>
      ResolveProjectPath(lib, root, projectPath, false) == ResolveProjectPath(lib, root, projectPath, true)
  {
  }

  /** A written path lies under the root's `public` or `public-preview` directory. */
  lemma WriteStaysInPublic(lib: PathLib, root: string, projectPath: string)
    requires ResolveProjectPath(lib, root, projectPath, true).Returned?
    ensures var p := ResolveProjectPath(lib, root, projectPath, true).value;
      StartsWith(p, root + "/public/") || StartsWith(p, root + "/public-preview/")
  {
    var p := ResolveProjectPath(lib, root, projectPath, true).value;
    var k :| 0 <= k < 2 && StartsWith(p, WritableUnder(root)[k]);
  }

  /** `absolutePathToProjectPath`: "/" followed by the path relative to the root. */
  function AbsolutePathToProjectPath(lib: PathLib, root: string, absolutePath: string): (r: string)
    ensures StartsWith(r, "/") && r[1..] == lib.relative(root, absolutePath)
  {
    "/" + lib.relative(root, absolutePath)
  }

  /**
   * The two conversions are inverse for a read, wherever resolving the
   * relative path against the root gives the absolute path back (true of
   * POSIX paths under the root).
   */
  lemma ProjectPathRoundTrip(lib: PathLib, root: string, absolutePath: string)
    requires lib.resolve(root, lib.relative(root, absolutePath)) == absolutePath
    ensures ResolveProjectPath(lib, root, AbsolutePathToProjectPath(lib, root, absolutePath), false) == Returned(absolutePath)
  {
    var p := AbsolutePathToProjectPath(lib, root, absolutePath);
    assert p[1..] == lib.relative(root, absolutePath);
  }

  /** `copyFile(src, dest)`'s resolution: the source for reading, then the destination for writing. */
  function CopyFilePaths(lib: PathLib, root: string, src: string, dest: string): (r: Completion<(string, string), S.Exception>)
    ensures ResolveProjectPath(lib, root, src, false).Threw? ==> r == Threw(ResolveProjectPath(lib, root, src, false).error)
    ensures ResolveProjectPath(lib, root, src, false).Returned? && ResolveProjectPath(lib, root, dest, true).Threw? ==>
      r == Threw(ResolveProjectPath(lib, root, dest, true).error)
    ensures r.Returned? <==> ResolveProjectPath(lib, root, src, false).Returned? && ResolveProjectPath(lib, root, dest, true).Returned?
    ensures r.Returned? ==> r.value == (ResolveProjectPath(lib, root, src, false).value, ResolveProjectPath(lib, root, dest, true).value)
  {
    match ResolveProjectPath(lib, root, src, false)
    case Threw(e) => Threw(e)
    case Returned(s) =>
      match ResolveProjectPath(lib, root, dest, true)
      case Threw(e) => Threw(e)
      case Returned(d) => Returned((s, d))
  }

  /** `writeFile(projectPath, data)`'s resolution: for writing. */
  function WriteFilePath(lib: PathLib, root: string, projectPath: string): (r: Completion<string, S.Exception>)
    ensures r == ResolveProjectPath(lib, root, projectPath, true)
    ensures r.Returned? ==> SomePrefix(WritableUnder(root), r.value)
  {
    ResolveProjectPath(lib, root, projectPath, true)
  }

  /** What `fs.statSync` finds at a path, when it finds anything. */
  datatype EntryKind = FileEntry | DirectoryEntry | OtherEntry

  /**
   * `deleteFileSync(projectPath)` as written: the path is resolved for
   * writing; then `stat` resolves it again, for reading, and looks it up.
   * The test `stat(projectPath)?.isFile` reads the method `isFile` without
   * calling it, so it holds for every entry `stat` finds, of any kind, and
   * `fs.unlinkSync` is called on it (which throws for a directory).
   * `stat` gives the entry at an absolute path, if any; `unlink` the error
   * `fs.unlinkSync` throws there, if any. The result is the absolute path
   * unlinked, if any.
   */
  function DeleteFileSync(lib: PathLib, root: string, projectPath: string,
                          stat: string -> Option<EntryKind>, unlink: string -> Option<S.Exception>): (r: Completion<Option<string>, S.Exception>)
    ensures ResolveProjectPath(lib, root, projectPath, true).Threw? ==> r == Threw(ResolveProjectPath(lib, root, projectPath, true).error)
    ensures ResolveProjectPath(lib, root, projectPath, true).Returned? ==>
      var p := ResolveProjectPath(lib, root, projectPath, true).value;
      (r == Returned(Some(p)) <==> stat(p).Some? && unlink(p).None?) &&
      (r == Returned(None) <==> stat(p).None?) &&
      (r.Threw? <==> stat(p).Some? && unlink(p).Some?) &&
      (r.Threw? ==> r.error == unlink(p).value)
  {
    match ResolveProjectPath(lib, root, projectPath, true)
    case Threw(e) => Threw(e)
    case Returned(p) =>
      WriteResolutionImpliesRead(lib, root, projectPath);
      match ResolveProjectPath(lib, root, projectPath, false)
      case Threw(e) => Threw(e)
      case Returned(q) =>
        if stat(q).Some? then
          (if unlink(p).Some? then Threw(unlink(p).value) else Returned(Some(p)))
        else Returned(None)
  }

  /**
   * `deleteFileSync` with `stat(projectPath)?.isFile()`: only a file is
   * unlinked; a missing entry, a directory or anything else is left alone.
   */
  function DeleteFileSyncCalling(lib: PathLib, root: string, projectPath: string,
                                 stat: string -> Option<EntryKind>, unlink: string -> Option<S.Exception>): (r: Completion<Option<string>, S.Exception>)
    ensures ResolveProjectPath(lib, root, projectPath, true).Threw? ==> r == Threw(ResolveProjectPath(lib, root, projectPath, true).error)
    ensures ResolveProjectPath(lib, root, projectPath, true).Returned? ==>
      var p := ResolveProjectPath(lib, root, projectPath, true).value;
      (r == Returned(Some(p)) <==> stat(p) == Some(FileEntry) && unlink(p).None?) &&
      (r == Returned(None) <==> stat(p) != Some(FileEntry)) &&
      (r.Threw? <==> stat(p) == Some(FileEntry) && unlink(p).Some?) &&
      (r.Threw? ==> r.error == unlink(p).value)
  {
    match ResolveProjectPath(lib, root, projectPath, true)
    case Threw(e) => Threw(e)
    case Returned(p) =>
      WriteResolutionImpliesRead(lib, root, projectPath);
      match ResolveProjectPath(lib, root, projectPath, false)
      case Threw(e) => Threw(e)
      case Returned(q) =>
        if stat(q) == Some(FileEntry) then
          (if unlink(p).Some? then Threw(unlink(p).value) else Returned(Some(p)))
        else Returned(None)
  }

  /**
   * A directory under a writable path: as written, `deleteFileSync` passes it
   * to `fs.unlinkSync` and throws the error that raises; called as
   * `isFile()`, the test leaves the directory alone and returns.
   */
  lemma DirectoryDeleteThrows(lib: PathLib, root: string, projectPath: string,
                              stat: string -> Option<EntryKind>, unlink: string -> Option<S.Exception>, e: S.Exception)
    requires ResolveProjectPath(lib, root, projectPath, true).Returned?
    requires stat(ResolveProjectPath(lib, root, projectPath, true).value) == Some(DirectoryEntry)
    requires unlink(ResolveProjectPath(lib, root, projectPath, true).value) == Some(e)
    ensures DeleteFileSync(lib, root, projectPath, stat, unlink) == Threw(e)
    ensures DeleteFileSyncCalling(lib, root, projectPath, stat, unlink) == Returned(None)
  {
  }

  /**
   * The corrected delete only unlinks files, and then agrees with the code
   * as written; the two differ only on entries that are not files.
   */
  lemma DeleteAgreesOnFiles(lib: PathLib, root: string, projectPath: string,
                            stat: string -> Option<EntryKind>, unlink: string -> Option<S.Exception>)
    requires ResolveProjectPath(lib, root, projectPath, true).Returned? ==>
      var p := ResolveProjectPath(lib, root, projectPath, true).value;
      stat(p) == None || stat(p) == Some(FileEntry)
    ensures DeleteFileSync(lib, root, projectPath, stat, unlink) == DeleteFileSyncCalling(lib, root, projectPath, stat, unlink)
  {
    var w := ResolveProjectPath(lib, root, projectPath, true);
    if w.Returned? {
      var p := w.value;
      var written, called := DeleteFileSync(lib, root, projectPath, stat, unlink), DeleteFileSyncCalling(lib, root, projectPath, stat, unlink);
      if stat(p).None? {
        assert written == Returned(None) && called == Returned(None);
      } else if unlink(p).Some? {
        assert written == Threw(unlink(p).value) && called == Threw(unlink(p).value);
      } else {
        assert written == Returned(Some(p)) && called == Returned(Some(p));
      }
    }
  }
}

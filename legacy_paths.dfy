// The older project-path resolution (`src/filesystem.ts`): every access
// must resolve to a path that starts with the project root followed by an
// extra prefix, which is empty for reads and "/public" for writes.
module LegacyPaths {
  import opened Common
  import opened NodePath
  import S = Service

  function NoLeadingSlashMessage(projectPath: string): string
  {
    "Project path does not start with /: " + S.Quoted(projectPath)
  }

  function OutsideMessage(resolved: string, allowed: string): string
  {
    "Cannot access path " + S.Quoted(resolved) + " because it does not start with " + S.Quoted(allowed)
  }

  /**
   * `resolveProjectPath(projectPath, additionalPrefix)`: a path without a
   * leading "/" throws; otherwise the rest of it is resolved against the
   * root, and the result must start with the root followed by
   * `additionalPrefix`, as a string.
   */
  function ResolveProjectPath(lib: PathLib, root: string, projectPath: string, additionalPrefix: string): (r: Completion<string, S.Exception>)
    ensures !StartsWith(projectPath, "/") ==> r == Threw(S.Error(NoLeadingSlashMessage(projectPath)))
    ensures StartsWith(projectPath, "/") ==>
      var resolved := lib.resolve(root, projectPath[1..]);
      (r.Returned? <==> StartsWith(resolved, root + additionalPrefix)) &&
      (r.Returned? ==> r.value == resolved) &&
      (r.Threw? ==> r.error == S.Error(OutsideMessage(resolved, root + additionalPrefix)))
  {
    if !StartsWith(projectPath, "/") then Threw(S.Error(NoLeadingSlashMessage(projectPath)))
    else
      var resolved := lib.resolve(root, projectPath[1..]);
      if StartsWith(resolved, root + additionalPrefix) then Returned(resolved)
      else Threw(S.Error(OutsideMessage(resolved, root + additionalPrefix)))
  }

  /** `readFile` and `stat`: the default, empty, prefix. */
  function ReadPath(lib: PathLib, root: string, projectPath: string): (r: Completion<string, S.Exception>)
    ensures r == ResolveProjectPath(lib, root, projectPath, "")
    ensures r.Returned? ==> StartsWith(r.value, root)
  {
    assert root + "" == root;
    ResolveProjectPath(lib, root, projectPath, "")
  }

  /** `writeFile`: the prefix "/public". */
  function WritePath(lib: PathLib, root: string, projectPath: string): (r: Completion<string, S.Exception>)
    ensures r == ResolveProjectPath(lib, root, projectPath, "/public")
    ensures r.Returned? ==> StartsWith(r.value, root + "/public")
  {
    ResolveProjectPath(lib, root, projectPath, "/public")
  }

  /** A path that may be written may be read, and resolves to the same place. */
  lemma WritableIsReadable(lib: PathLib, root: string, projectPath: string)
    ensures WritePath(lib, root, projectPath).Returned? ==> ReadPath(lib, root, projectPath) == WritePath(lib, root, projectPath)
  {
    if WritePath(lib, root, projectPath).Returned? {
      var resolved := WritePath(lib, root, projectPath).value;
      assert resolved[..|root|] == (root + "/public")[..|root|];
      assert root + "" == root;
    }
  }
}

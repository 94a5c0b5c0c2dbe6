// The filesystem macro (`src/macros/filesystem.ts`): it creates the file
// targets, records which targets read and which write each project path,
// and in watch mode decides, event by event, which targets a batch of
// file events resets.
module FilesystemMacro {
  import opened Common
  import opened NodePath
  import F = FileService

  /** `FilesystemMacroArgs`. */
  datatype MacroArgs = MacroArgs(projectRoot: string, readPathPrefixes: seq<string>, writePathPrefixes: seq<string>, watchPathPrefixes: seq<string>)

  /**
   * A target the macro created through the file macros, with what it was
   * given: its id, the allow-lists and absolute paths; `data` is the
   * target the written text comes from.
   */
  datatype FileTarget =
    | CopyFileTarget(id: string, allow: F.Allow, src: string, dest: string)
    | ReadTextFileTarget(id: string, allow: F.Allow, path: string)
    | WriteTextFileTarget(id: string, allow: F.Allow, path: string, data: nat)

  /** A file event: chokidar's event name and path. */
  datatype Event = Event(kind: string, path: string)

  /**
   * `mapGetPush(map, key, value)`: the key's list, created empty if the
   * key is absent, gains the value at its end; the other keys keep theirs.
   */
  function MapGetPush<K(==), V>(m: map<K, seq<V>>, key: K, value: V): (r: map<K, seq<V>>)
    ensures r.Keys == m.Keys + {key}
    ensures r[key] == (if key in m then m[key] else []) + [value]
    ensures forall k :: k in m && k != key ==> r[k] == m[k]
  {
    m[key := (if key in m then m[key] else []) + [value]]
  }

  /** `toAbsolutePath` applied to every path. */
  function AbsoluteAll(lib: PathLib, root: string, paths: seq<string>): (r: seq<string>)
    ensures |r| == |paths| && forall k :: 0 <= k < |paths| ==> r[k] == lib.join(root, paths[k])
  {
    if |paths| == 0 then [] else [lib.join(root, paths[0])] + AbsoluteAll(lib, root, paths[1..])
  }

  /**
   * What the targets a batch resets, and whether the watch goes on: each
   * event in turn that is a "change" of a path some target reads resets
   * those targets, in the order they were registered; the first other
   * event ends the watch.
   */
  function BatchOutcome(readingTargets: map<string, seq<nat>>, batch: seq<Event>): (seq<nat>, bool)
  {
    if |batch| == 0 then ([], true)
    else if batch[0].kind == "change" && batch[0].path in readingTargets then
      var rest := BatchOutcome(readingTargets, batch[1..]);
      (readingTargets[batch[0].path] + rest.0, rest.1)
    else ([], false)
  }

  /** The watch goes on exactly when every event of the batch is a change of a path some target reads. */
  lemma {:induction false} BatchContinuesIff(readingTargets: map<string, seq<nat>>, batch: seq<Event>)
    ensures BatchOutcome(readingTargets, batch).1 <==>
      forall k :: 0 <= k < |batch| ==> batch[k].kind == "change" && batch[k].path in readingTargets
  {
    if |batch| > 0 {
      BatchContinuesIff(readingTargets, batch[1..]);
      assert forall k :: 1 <= k < |batch| ==> batch[k] == batch[1..][k - 1];
    }
  }

  /** An event that ends the watch hides every event after it: they reset nothing. */
  lemma {:induction false} BatchStopsAtFirstOther(readingTargets: map<string, seq<nat>>, batch: seq<Event>, k: nat)
    requires k < |batch| && !(batch[k].kind == "change" && batch[k].path in readingTargets)
    ensures BatchOutcome(readingTargets, batch) == (BatchOutcome(readingTargets, batch[..k]).0, false)
  {
    if k > 0 {
      assert batch[1..][k - 1] == batch[k];
      BatchStopsAtFirstOther(readingTargets, batch[1..], k - 1);
      assert batch[1..][..k - 1] == batch[..k][1..];
    }
  }

  lemma AppendAssociates(a: seq<nat>, b: seq<nat>, c: seq<nat>)
    ensures a + (b + c) == (a + b) + c
  {
  }

  class Filesystem {
    const lib: PathLib
    const args: MacroArgs
    /** Project path to the targets that read it, in registration order. */
    var readingTargets: map<string, seq<nat>>
    /** Project path to the targets that write it, in registration order. */
    var writingTargets: map<string, seq<nat>>
    /** The targets created so far; a target is its index. */
    var targets: seq<FileTarget>

    /** `toAbsolutePath`: the project path joined onto the root. */
    function ToAbsolutePath(projectPath: string): string
    {
      lib.join(args.projectRoot, projectPath)
    }

    /** `allow`: the read and write prefixes, made absolute. */
    function Allow(): F.Allow
    {
      F.Allow(AbsoluteAll(lib, args.projectRoot, args.readPathPrefixes), AbsoluteAll(lib, args.projectRoot, args.writePathPrefixes))
    }

    /** `watchPathPrefixes`: the read prefixes, then the extra watch prefixes, all absolute. */
    function WatchPathPrefixes(): seq<string>
    {
      Allow().readPathPrefixes + AbsoluteAll(lib, args.projectRoot, args.watchPathPrefixes)
    }

    /** The macro's own prefixes for an operation, as given, relative to the root. */
    function GivenPrefixes(op: F.Operation): seq<string>
    {
      if op.Read? then args.readPathPrefixes else args.writePathPrefixes
    }

    /**
     * What the file targets' allow-lists permit: a path is accepted for an
     * operation exactly when it is absolute, normalized, and starts with
     * one of that operation's prefixes as given to the macro, joined onto
     * the project root.
     */
    lemma AllowedIff(op: F.Operation, path: string)
      ensures F.Allowed(lib, Allow(), op, path).Returned? <==>
        lib.isAbsolute(path) && lib.normalize(path) == path &&
        exists k :: 0 <= k < |GivenPrefixes(op)| && StartsWith(path, lib.join(args.projectRoot, GivenPrefixes(op)[k]))
    {
      assert Allow().Prefixes(op) == AbsoluteAll(lib, args.projectRoot, GivenPrefixes(op));
    }

    /** Everything a file target may read lies under a watched prefix, so a change to it is seen. */
    lemma ReadableIsWatched(path: string)
      ensures F.Allowed(lib, Allow(), F.Read, path).Returned? ==> SomePrefix(WatchPathPrefixes(), path)
      ensures forall k :: 0 <= k < |args.watchPathPrefixes| ==> lib.join(args.projectRoot, args.watchPathPrefixes[k]) in WatchPathPrefixes()
    {
      var readPrefixes := Allow().readPathPrefixes;
      if F.Allowed(lib, Allow(), F.Read, path).Returned? {
        var k :| 0 <= k < |readPrefixes| && StartsWith(path, readPrefixes[k]);
        assert WatchPathPrefixes()[k] == readPrefixes[k];
      }
      var extra := AbsoluteAll(lib, args.projectRoot, args.watchPathPrefixes);
      forall k | 0 <= k < |args.watchPathPrefixes|
        ensures lib.join(args.projectRoot, args.watchPathPrefixes[k]) in WatchPathPrefixes()
      {
        assert WatchPathPrefixes()[|readPrefixes| + k] == extra[k];
      }
    }

    /** Every registered handle names a created target. */
    predicate Valid()
      reads this
    {
      (forall p :: p in readingTargets ==> forall k :: 0 <= k < |readingTargets[p]| ==> readingTargets[p][k] < |targets|) &&
      (forall p :: p in writingTargets ==> forall k :: 0 <= k < |writingTargets[p]| ==> writingTargets[p][k] < |targets|)
    }

    constructor(lib: PathLib, args: MacroArgs)
      ensures this.lib == lib && this.args == args
      ensures readingTargets == map[] && writingTargets == map[] && targets == []
      ensures Valid()
    {
      this.lib := lib;
      this.args := args;
      readingTargets, writingTargets, targets := map[], map[], [];
    }

    /**
     * `copyFile(src, dest)`: a target with id "CopyFile:" + dest and the
     * absolute paths, registered as a reader of `src` and a writer of
     * `dest` under the project paths as given.
     */
    method CopyFile(src: string, dest: string) returns (t: nat)
      requires Valid()
      modifies this
      ensures t == |old(targets)|
      ensures targets == old(targets) + [CopyFileTarget("CopyFile:" + dest, Allow(), ToAbsolutePath(src), ToAbsolutePath(dest))]
      ensures readingTargets == MapGetPush(old(readingTargets), src, t)
      ensures writingTargets == MapGetPush(old(writingTargets), dest, t)
      ensures Valid()
    {
      t := |targets|;
      targets := targets + [CopyFileTarget("CopyFile:" + dest, Allow(), ToAbsolutePath(src), ToAbsolutePath(dest))];
      readingTargets := MapGetPush(readingTargets, src, t);
      writingTargets := MapGetPush(writingTargets, dest, t);
    }

    /** `readTextFile(path)`: a target with id "ReadTextFile:" + path, registered only as a reader. */
    method ReadTextFile(path: string) returns (t: nat)
      requires Valid()
      modifies this
      ensures t == |old(targets)|
      ensures targets == old(targets) + [ReadTextFileTarget("ReadTextFile:" + path, Allow(), ToAbsolutePath(path))]
      ensures readingTargets == MapGetPush(old(readingTargets), path, t)
      ensures writingTargets == old(writingTargets)
      ensures Valid()
    {
      t := |targets|;
      targets := targets + [ReadTextFileTarget("ReadTextFile:" + path, Allow(), ToAbsolutePath(path))];
      readingTargets := MapGetPush(readingTargets, path, t);
    }

    /** `writeTextFile(path, data)`: a target with id "WriteTextFile:" + path, registered only as a writer. */
    method WriteTextFile(path: string, data: nat) returns (t: nat)
      requires Valid()
      modifies this
      ensures t == |old(targets)|
      ensures targets == old(targets) + [WriteTextFileTarget("WriteTextFile:" + path, Allow(), ToAbsolutePath(path), data)]
      ensures writingTargets == MapGetPush(old(writingTargets), path, t)
      ensures readingTargets == old(readingTargets)
      ensures Valid()
    {
      t := |targets|;
      targets := targets + [WriteTextFileTarget("WriteTextFile:" + path, Allow(), ToAbsolutePath(path), data)];
      writingTargets := MapGetPush(writingTargets, path, t);
    }

    /**
     * One batch of `watchFiles`' loop: the targets reset, in order, and
     * whether the watch goes on (`break outer` ends it).
     */
    method ProcessBatch(batch: seq<Event>) returns (resets: seq<nat>, keepWatching: bool)
      requires Valid()
      ensures (resets, keepWatching) == BatchOutcome(readingTargets, batch)
      ensures forall k :: 0 <= k < |resets| ==> resets[k] < |targets|
    {
      resets := [];
      var k := 0;
      assert batch[0..] == batch;
      assert [] + BatchOutcome(readingTargets, batch).0 == BatchOutcome(readingTargets, batch).0;
      while k < |batch|
        invariant 0 <= k <= |batch| && forall j :: 0 <= j < |resets| ==> resets[j] < |targets|
        invariant BatchOutcome(readingTargets, batch) ==
          (resets + BatchOutcome(readingTargets, batch[k..]).0, BatchOutcome(readingTargets, batch[k..]).1)
      {
        var event := batch[k];
        assert batch[k..][0] == event && batch[k..][1..] == batch[k + 1..];
        if event.kind == "change" && event.path in readingTargets {
          var rest := BatchOutcome(readingTargets, batch[k + 1..]);
          AppendAssociates(resets, readingTargets[event.path], rest.0);
          resets := resets + readingTargets[event.path];
        } else {
          assert resets + [] == resets;
          return resets, false;
        }
        k := k + 1;
      }
      assert batch[k..] == [] && resets + [] == resets;
      keepWatching := true;
    }
  }
}

/**
 * The relocation deployment provider: it copies a resource file into the
 * public `deployed` folder under the application root, returns the URL it is
 * served at (with a cache-busting query for scripts and style sheets) and
 * remembers that URL for the resource's path; it can also write generated
 * content there.
 *
 * The filesystem is a map from path to entry (a file with its modification
 * time and content, or a directory) held by a `FileSystem` object, together
 * with a fixed environment: `realpath` as a partial map, the paths where
 * creating or writing fails, and the clock that stamps what is written.
 * The application root is a parameter.
 */
module Deployment {
  import opened Wrappers
  import opened Strings

  datatype Entry = File(mtime: int, content: string) | Directory(mtime: int)

  datatype Environment = Environment(realpaths: map<string, string>, locked: set<string>, clock: int)

  /** The DeploymentException cases, with the path each one names. */
  datatype DeployError =
    | ResourceNotFound(path: string)
    | FolderNotCreated(folder: string)
    | ResourceUnreadable(path: string)
    | CopyFailed(path: string)
    | FileNotCreated(path: string)

  /** The result of a deployment, the provider's URL cache afterwards and the files afterwards. */
  datatype Deployment = Deployment(result: Result<string, DeployError>, cache: map<string, string>, entries: map<string, Entry>)

  /** The folder every deployed file goes in, relative to the working directory. */
  const DeployedFolder: string := "deployed"

  // ---------------------------------------------------------------------
  // PHP's dirname for '/'-separated paths

  function StripTrailingSlashes(s: string): (r: string)
    ensures |r| <= |s| && r == s[..|r|]
    ensures r == [] || r[|r| - 1] != '/'
    ensures forall i :: |r| <= i < |s| ==> s[i] == '/'
  {
    if s != [] && s[|s| - 1] == '/' then StripTrailingSlashes(s[..|s| - 1]) else s
  }

  /** The position of the last '/', if any. */
  function LastSlash(s: string): (r: Option<nat>)
    ensures r.Some? ==> r.value < |s| && s[r.value] == '/' && forall i :: r.value < i < |s| ==> s[i] != '/'
    ensures r.None? ==> forall i :: 0 <= i < |s| ==> s[i] != '/'
  {
    if s == [] then None
    else if s[|s| - 1] == '/' then Some(|s| - 1)
    else LastSlash(s[..|s| - 1])
  }

  /** `dirname(p)`: the path without its last component; "." when it has no '/', "/" at the top. */
  function Dirname(p: string): string
  {
    var t := StripTrailingSlashes(p);
    if t == [] then (if p == [] then "" else "/")
    else
      match LastSlash(t)
      case None => "."
      case Some(i) =>
        var d := StripTrailingSlashes(t[..i]);
        if d == [] then "/" else d
  }

  /** The directory of `dir/name` is `dir`. */
  lemma DirnameOfJoin(dir: string, name: string)
    requires dir != [] && dir[|dir| - 1] != '/'
    requires name != [] && forall i :: 0 <= i < |name| ==> name[i] != '/'
    ensures Dirname(dir + "/" + name) == dir
  {
    var p := dir + "/" + name;
    assert StripTrailingSlashes(p) == p;
    assert LastSlash(p) == Some(|dir|) by {
      assert p[|dir|] == '/';
      assert forall i :: |dir| < i < |p| ==> p[i] == name[i - |dir| - 1];
      LastSlashAt(p, |dir|);
    }
    assert p[..|dir|] == dir;
  }

  lemma {:induction false} LastSlashAt(s: string, k: nat)
    requires k < |s| && s[k] == '/' && forall i :: k < i < |s| ==> s[i] != '/'
    ensures LastSlash(s) == Some(k)
    decreases |s|
  {
    if k < |s| - 1 {
      LastSlashAt(s[..|s| - 1], k);
    }
  }

  /** The directory of a path of two or more characters is shorter than the path. */
  lemma DirnameShorter(p: string)
    requires |p| >= 2
    ensures |Dirname(p)| < |p|
  {
  }

  // ---------------------------------------------------------------------
  // The path and URL computations

  /** The deployed URL path: "/deployed" and the resolved path with the root removed and '\' turned into '/'. */
  function UrlPath(root: string, resolved: string): string
  {
    "/deployed" + StrReplace("\\", "/", StrReplace(root, "", resolved))
  }

  /** Where the deployed copy is written: the root followed by the URL path. */
  function LocalPath(root: string, resolved: string): string
  {
    root + UrlPath(root, resolved)
  }

  /** The extension `/(\.js|\.css)$/` captures; `$` also matches before a final line break. */
  function ScriptExtension(path: string): Option<string>
  {
    if EndsWith(path, ".js") || EndsWith(path, ".js\n") then Some(".js")
    else if EndsWith(path, ".css") || EndsWith(path, ".css\n") then Some(".css")
    else None
  }

  /** The query appended to the URL of a script or style sheet: '?', its modification time and its extension. */
  function CacheBust(path: string, mtime: int): string
  {
    match ScriptExtension(path)
    case Some(ext) => "?" + IntToString(mtime) + ext
    case None => ""
  }

  /** The copy is made when there is no deployed copy yet or the resource is newer than it. */
  predicate NeedsCopy(entries: map<string, Entry>, resolved: string, local: string)
    requires resolved in entries
  {
    local !in entries || entries[resolved].mtime > entries[local].mtime
  }

  /** The URL `getDeployedResourceUrl` gives: the remembered one, else one computed without deploying. */
  function DeployedUrl(cache: map<string, string>, env: Environment, root: string, path: string): string
  {
    if path in cache then cache[path]
    else
      var resolved := if path in env.realpaths then env.realpaths[path] else "";
      "/deployed/" + LTrim(StrReplace("\\", "/", StrReplace(root, "", resolved)), '/')
  }

  // ---------------------------------------------------------------------
  // The filesystem operations, on values

  /** `if (!file_exists(dir)) mkdir(dir)`: creation fails on a locked path. */
  function MkdirIfMissing(entries: map<string, Entry>, env: Environment, dir: string): (r: Result<map<string, Entry>, DeployError>)
    ensures r.Ok? ==> dir in r.value && forall p :: p in entries ==> p in r.value && r.value[p] == entries[p]
    ensures r.Ok? ==> forall p :: p in r.value && p != dir ==> p in entries
    ensures r.Err? <==> dir !in entries && dir in env.locked
  {
    if dir in entries then Ok(entries)
    else if dir in env.locked then Err(FolderNotCreated(dir))
    else Ok(entries[dir := Directory(env.clock)])
  }

  /** `copy(src, dst)` succeeds when the source is a file and the destination is writable and not a directory. */
  predicate CanWrite(entries: map<string, Entry>, env: Environment, dst: string)
  {
    dst !in env.locked && !(dst in entries && entries[dst].Directory?)
  }

  /** The copy step: a stale or missing deployed copy is replaced by a copy of the resource. */
  function CopyIfStale(entries: map<string, Entry>, env: Environment, resolved: string, local: string): (r: Result<map<string, Entry>, DeployError>)
    requires resolved in entries
    ensures r.Ok? ==> r.value.Keys == entries.Keys + {local}
    ensures r.Err? <==> NeedsCopy(entries, resolved, local) && !(entries[resolved].File? && CanWrite(entries, env, local))
  {
    if !NeedsCopy(entries, resolved, local) then Ok(entries)
    else if entries[resolved].File? && CanWrite(entries, env, local) then Ok(entries[local := File(env.clock, entries[resolved].content)])
    else Err(CopyFailed(resolved))
  }

  /** Deploying a resolved resource path: the URL or the error, and the files afterwards. */
  function DeployResolved(entries: map<string, Entry>, env: Environment, root: string, resolved: string): (Result<string, DeployError>, map<string, Entry>)
  {
    match MkdirIfMissing(entries, env, DeployedFolder)
    case Err(e) => (Err(e), entries)
    case Ok(afterFolder) =>
      if resolved !in afterFolder then (Err(ResourceUnreadable(resolved)), afterFolder)
      else
        var url := UrlPath(root, resolved);
        match MkdirIfMissing(afterFolder, env, Dirname(root + url))
        case Err(e) => (Err(e), afterFolder)
        case Ok(ready) =>
          match CopyIfStale(ready, env, resolved, root + url)
          case Err(e) => (Err(e), ready)
          case Ok(copied) => (Ok(url + CacheBust(resolved, copied[resolved].mtime)), copied)
  }

  /** `deployResource(path)`, as a function of the cache, the files and the environment. */
  function DeploySpec(cache: map<string, string>, entries: map<string, Entry>, env: Environment, root: string, path: string): Deployment
  {
    if path in cache then Deployment(Ok(cache[path]), cache, entries)
    else if path !in env.realpaths then Deployment(Err(ResourceNotFound(path)), cache, entries)
    else
      var (result, after) := DeployResolved(entries, env, root, env.realpaths[path]);
      Deployment(result, if result.Ok? then cache[path := result.value] else cache, after)
  }

  /** `deployResourceContent(content, simulatedPath)`: the result and the files afterwards. */
  function ContentSpec(entries: map<string, Entry>, env: Environment, content: string, simulated: string): (Result<string, DeployError>, map<string, Entry>)
  {
    match MkdirIfMissing(entries, env, DeployedFolder)
    case Err(e) => (Err(e), entries)
    case Ok(afterFolder) =>
      var urlPath := "deployed/" + simulated;
      match MkdirIfMissing(afterFolder, env, Dirname(urlPath))
      case Err(e) => (Err(e), afterFolder)
      case Ok(ready) =>
        if !CanWrite(ready, env, urlPath) then (Err(FileNotCreated(urlPath)), ready)
        else
          var written := ready[urlPath := File(env.clock, content)];
          // file_put_contents returns the number of bytes written; 0 is falsy.
          if |content| == 0 then (Err(FileNotCreated(urlPath)), written)
          else (Ok("/" + urlPath), written)
  }

  // ---------------------------------------------------------------------
  // What deployResource promises

  /** A remembered path returns its URL and touches neither the cache nor the files. */
  lemma CachedPathUnchanged(cache: map<string, string>, entries: map<string, Entry>, env: Environment, root: string, path: string)
    requires path in cache
    ensures DeploySpec(cache, entries, env, root, path) == Deployment(Ok(cache[path]), cache, entries)
  {
  }

  /** A path `realpath` cannot resolve is an error, and nothing changes. */
  lemma UnresolvedPathFails(cache: map<string, string>, entries: map<string, Entry>, env: Environment, root: string, path: string)
    requires path !in cache && path !in env.realpaths
    ensures DeploySpec(cache, entries, env, root, path) == Deployment(Err(ResourceNotFound(path)), cache, entries)
  {
  }

  /**
   * A deployment either fails and leaves the cache as it was, or succeeds
   * and remembers its URL for the original path, changing no other entry.
   */
  lemma DeployCachesOnlyTheResult(cache: map<string, string>, entries: map<string, Entry>, env: Environment, root: string, path: string)
    ensures var d := DeploySpec(cache, entries, env, root, path);
            if d.result.Err? then d.cache == cache
            else path in d.cache && d.cache[path] == d.result.value &&
                 forall p :: p != path ==> (p in d.cache <==> p in cache) && (p in cache ==> d.cache[p] == cache[p])
  {
  }

  /**
   * A fresh deployment's URL is the URL path of the resolved file followed by
   * the cache-busting query for its modification time.
   */
  lemma DeployedUrlShape(cache: map<string, string>, entries: map<string, Entry>, env: Environment, root: string, path: string)
    requires path !in cache
    requires DeploySpec(cache, entries, env, root, path).result.Ok?
    ensures path in env.realpaths
    ensures var resolved := env.realpaths[path];
            var d := DeploySpec(cache, entries, env, root, path);
            resolved in d.entries &&
            d.result.value == UrlPath(root, resolved) + CacheBust(resolved, d.entries[resolved].mtime)
  {
  }

  /** A folder created on the way is never the deployed copy itself. */
  lemma LocalPathIsNoFolderCreated(root: string, resolved: string)
    ensures LocalPath(root, resolved) != DeployedFolder
    ensures Dirname(LocalPath(root, resolved)) != LocalPath(root, resolved)
  {
    var local := LocalPath(root, resolved);
    assert local[|root|] == '/';
    assert forall i :: 0 <= i < |DeployedFolder| ==> DeployedFolder[i] != '/';
    DirnameShorter(local);
  }

  /**
   * For a resource that exists, a successful deployment copies it exactly
   * when there was no deployed copy or the resource is newer than the copy;
   * otherwise the deployed copy is left as it was.
   */
  lemma CopyOnlyWhenStale(cache: map<string, string>, entries: map<string, Entry>, env: Environment, root: string, path: string)
    requires path !in cache && path in env.realpaths && env.realpaths[path] in entries
    requires DeploySpec(cache, entries, env, root, path).result.Ok?
    ensures var resolved := env.realpaths[path];
            var local := LocalPath(root, resolved);
            var after := DeploySpec(cache, entries, env, root, path).entries;
            local in after &&
            if NeedsCopy(entries, resolved, local)
            then entries[resolved].File? && after[local] == File(env.clock, entries[resolved].content)
            else after[local] == entries[local]
  {
    var resolved := env.realpaths[path];
    LocalPathIsNoFolderCreated(root, resolved);
  }

  /**
   * A script or style sheet gets '?', its modification time and its own
   * extension, also when its name ends in a line break.
   */
  lemma CacheBustScripts(path: string, mtime: int)
    ensures EndsWith(path, ".js") || EndsWith(path, ".js\n") ==> CacheBust(path, mtime) == "?" + IntToString(mtime) + ".js"
    ensures EndsWith(path, ".css") || EndsWith(path, ".css\n") ==> CacheBust(path, mtime) == "?" + IntToString(mtime) + ".css"
  {
    var n := |path|;
    if EndsWith(path, ".css") {
      assert path[n - 3] == path[n - 4..][1] == 'c';
      assert path[n - 1] == path[n - 4..][3] == 's';
      assert !EndsWith(path, ".js") by { assert ".js"[0] == '.'; }
    } else if EndsWith(path, ".css\n") {
      assert path[n - 4] == path[n - 5..][1] == 'c';
      assert path[n - 1] == path[n - 5..][4] == '\n';
      assert !EndsWith(path, ".js\n") by { assert ".js\n"[0] == '.'; }
    }
  }

  /**
   * Any other file gets no query: one whose name ends in none of the four
   * script suffixes, in particular one whose last character is neither 's'
   * nor a line break.
   */
  lemma CacheBustOthers(path: string, mtime: int)
    ensures !(EndsWith(path, ".js") || EndsWith(path, ".js\n") || EndsWith(path, ".css") || EndsWith(path, ".css\n"))
            <==> ScriptExtension(path).None?
    ensures ScriptExtension(path).None? ==> CacheBust(path, mtime) == ""
    ensures path == [] || (path[|path| - 1] != 's' && path[|path| - 1] != '\n') ==> CacheBust(path, mtime) == ""
  {
    if path != [] && path[|path| - 1] != 's' && path[|path| - 1] != '\n' {
      var n := |path|;
      assert !EndsWith(path, ".js") && !EndsWith(path, ".css") by {
        assert ".js"[2] == 's' && ".css"[3] == 's';
      }
      assert !EndsWith(path, ".js\n") && !EndsWith(path, ".css\n") by {
        assert ".js\n"[3] == '\n' && ".css\n"[4] == '\n';
      }
    }
  }

  /** Appending the query the way `deployResource` does gives the URL followed by `CacheBust`. */
  lemma AppendCacheBust(url: string, path: string, mtime: int)
    ensures (match ScriptExtension(path) case Some(ext) => url + "?" + IntToString(mtime) + ext case None => url) ==
            url + CacheBust(path, mtime)
  {
    match ScriptExtension(path)
    case Some(ext) =>
      assert url + "?" + IntToString(mtime) + ext == url + ("?" + IntToString(mtime) + ext);
    case None =>
      assert url + "" == url;
  }

  /** Removing the root from a path that starts with it, and contains it nowhere else, leaves the rest. */
  lemma UrlPathOfRootedPath(root: string, rest: string)
    requires root != [] && !Occurs(rest, root)
    ensures UrlPath(root, root + rest) == "/deployed" + StrReplace("\\", "/", rest)
  {
    StrReplaceLeading(root, "", rest);
    StrReplaceAbsent(root, "", rest);
    assert StrReplace(root, "", root + rest) == rest;
  }

  /** A deployed URL never holds a backslash. */
  lemma UrlPathHasNoBackslash(root: string, resolved: string)
    ensures '\\' !in UrlPath(root, resolved)
  {
    StrReplaceCharRemovesAll('\\', '/', StrReplace(root, "", resolved));
  }

  // ---------------------------------------------------------------------
  // What getDeployedResourceUrl and deployResourceContent promise

  /** A remembered path gives its remembered URL; an unresolvable one gives the bare folder URL. */
  lemma DeployedUrlCases(cache: map<string, string>, env: Environment, root: string, path: string)
    ensures path in cache ==> DeployedUrl(cache, env, root, path) == cache[path]
    ensures path !in cache && path !in env.realpaths ==> DeployedUrl(cache, env, root, path) == "/deployed/"
  {
    if path !in cache && path !in env.realpaths {
      assert StrReplace(root, "", "") == "";
      assert StrReplace("\\", "/", "") == "";
    }
  }

  /**
   * Before deployment the computed URL agrees with the deployed URL path
   * when the root-stripped path starts with a single '/'.
   */
  lemma DeployedUrlMatchesUrlPath(cache: map<string, string>, env: Environment, root: string, path: string)
    requires path !in cache && path in env.realpaths
    requires var n := StrReplace("\\", "/", StrReplace(root, "", env.realpaths[path]));
             |n| >= 1 && n[0] == '/' && (|n| == 1 || n[1] != '/')
    ensures DeployedUrl(cache, env, root, path) == UrlPath(root, env.realpaths[path])
  {
    var n := StrReplace("\\", "/", StrReplace(root, "", env.realpaths[path]));
    assert LTrim(n, '/') == n[1..];
    assert "/deployed/" + n[1..] == "/deployed" + n;
  }

  /** After a deployment, the URL recorded for the path is the one deploying returned. */
  lemma DeployThenUrl(cache: map<string, string>, entries: map<string, Entry>, env: Environment, root: string, path: string)
    requires DeploySpec(cache, entries, env, root, path).result.Ok?
    ensures var d := DeploySpec(cache, entries, env, root, path);
            DeployedUrl(d.cache, env, root, path) == d.result.value
  {
  }

  /** Written content is served at "/deployed/" and its simulated path, and the file holds it. */
  lemma ContentUrl(entries: map<string, Entry>, env: Environment, content: string, simulated: string)
    requires ContentSpec(entries, env, content, simulated).0.Ok?
    ensures var (r, after) := ContentSpec(entries, env, content, simulated);
            r.value == "/deployed/" + simulated &&
            "deployed/" + simulated in after && after["deployed/" + simulated] == File(env.clock, content)
  {
  }

  /** Writing empty content always fails: no bytes written counts as failure. */
  lemma EmptyContentFails(entries: map<string, Entry>, env: Environment, simulated: string)
    ensures ContentSpec(entries, env, "", simulated).0.Err?
  {
  }

  /** Non-empty content is written when the folders exist or can be made and the file is writable. */
  lemma ContentSucceeds(entries: map<string, Entry>, env: Environment, content: string, simulated: string)
    requires content != []
    requires DeployedFolder in entries
    requires Dirname("deployed/" + simulated) in entries
    requires CanWrite(entries, env, "deployed/" + simulated)
    ensures ContentSpec(entries, env, content, simulated).0 == Ok("/deployed/" + simulated)
  {
    assert MkdirIfMissing(entries, env, DeployedFolder) == Ok(entries);
    assert MkdirIfMissing(entries, env, Dirname("deployed/" + simulated)) == Ok(entries);
    assert "/" + ("deployed/" + simulated) == "/deployed/" + simulated;
  }

  /**
   * Content at a simulated path with no folder of its own goes straight into
   * the deployed folder: only that folder has to exist or be creatable.
   */
  lemma FlatContentSucceeds(entries: map<string, Entry>, env: Environment, content: string, name: string)
    requires content != []
    requires name != [] && forall i :: 0 <= i < |name| ==> name[i] != '/'
    requires DeployedFolder in entries || DeployedFolder !in env.locked
    requires CanWrite(entries, env, "deployed/" + name)
    ensures ContentSpec(entries, env, content, name).0 == Ok("/deployed/" + name)
  {
    var urlPath := "deployed/" + name;
    assert urlPath == DeployedFolder + "/" + name;
    DirnameOfJoin(DeployedFolder, name);
    var afterFolder := MkdirIfMissing(entries, env, DeployedFolder).value;
    assert MkdirIfMissing(afterFolder, env, Dirname(urlPath)) == Ok(afterFolder);
    assert urlPath != DeployedFolder;
    assert CanWrite(afterFolder, env, urlPath);
    assert "/" + urlPath == "/deployed/" + name;
  }

  // ---------------------------------------------------------------------
  // The filesystem and the provider, as objects

  class FileSystem {
    var entries: map<string, Entry>
    const env: Environment

    constructor (entries0: map<string, Entry>, env0: Environment)
      ensures entries == entries0 && env == env0
    {
      entries := entries0;
      env := env0;
    }

    /** `realpath(p)`; None stands for false. */
    function RealPath(p: string): (r: Option<string>)
      ensures r.Some? <==> p in env.realpaths
      ensures r.Some? ==> r.value == env.realpaths[p]
    {
      if p in env.realpaths then Some(env.realpaths[p]) else None
    }

    /** `file_exists(p)`. */
    function Exists(p: string): bool
      reads this
    {
      p in entries
    }

    /** `filemtime(p)`. */
    function MTime(p: string): int
      reads this
      requires p in entries
    {
      entries[p].mtime
    }

    /** `mkdir(dir)` of a missing directory. */
    method Mkdir(dir: string) returns (ok: bool)
      requires dir !in entries
      modifies this
      ensures ok <==> dir !in env.locked
      ensures entries == if ok then old(entries)[dir := Directory(env.clock)] else old(entries)
    {
      ok := dir !in env.locked;
      if ok {
        entries := entries[dir := Directory(env.clock)];
      }
    }

    /** `copy(src, dst)`: the destination becomes a new file with the source's content. */
    method Copy(src: string, dst: string) returns (ok: bool)
      modifies this
      ensures ok <==> src in old(entries) && old(entries)[src].File? && CanWrite(old(entries), env, dst)
      ensures entries == if ok then old(entries)[dst := File(env.clock, old(entries)[src].content)] else old(entries)
    {
      ok := src in entries && entries[src].File? && CanWrite(entries, env, dst);
      if ok {
        entries := entries[dst := File(env.clock, entries[src].content)];
      }
    }

    /** `file_put_contents(p, content)`: the number of bytes written, or None for false. */
    method PutContents(p: string, content: string) returns (written: Option<nat>)
      modifies this
      ensures written == if CanWrite(old(entries), env, p) then Some(|content|) else None
      ensures entries == if written.Some? then old(entries)[p := File(env.clock, content)] else old(entries)
    {
      if CanWrite(entries, env, p) {
        entries := entries[p := File(env.clock, content)];
        written := Some(|content|);
      } else {
        written := None;
      }
    }
  }

  /** The provider, with the URLs it has deployed so far, keyed by the path they were asked for. */
  class RelocationResourceDeploymentProvider {
    var alreadyDeployed: map<string, string>

    constructor ()
      ensures alreadyDeployed == map[]
    {
      alreadyDeployed := map[];
    }

    /** `getDeployedResourceUrl`: reads the cache and the filesystem and changes neither. */
    function GetDeployedResourceUrl(fs: FileSystem, root: string, path: string): (r: string)
      reads this
      ensures path in alreadyDeployed ==> r == alreadyDeployed[path]
      ensures path !in alreadyDeployed && path !in fs.env.realpaths ==> r == "/deployed/"
    {
      DeployedUrlCases(alreadyDeployed, fs.env, root, path);
      DeployedUrl(alreadyDeployed, fs.env, root, path)
    }

    /** The folder step of both deployments: `if (!file_exists(dir) && !mkdir(dir)) throw`. */
    static method EnsureFolder(fs: FileSystem, dir: string) returns (r: Result<(), DeployError>)
      modifies fs
      ensures var m := MkdirIfMissing(old(fs.entries), fs.env, dir);
              (r.Ok? <==> m.Ok?) && (r.Err? ==> r.error == m.error && fs.entries == old(fs.entries)) &&
              (r.Ok? ==> fs.entries == m.value)
    {
      if !fs.Exists(dir) {
        var ok := fs.Mkdir(dir);
        if !ok {
          return Err(FolderNotCreated(dir));
        }
      }
      return Ok(());
    }

    /** `deployResource(path)`. */
    method DeployResource(fs: FileSystem, root: string, path: string) returns (r: Result<string, DeployError>)
      modifies this, fs
      ensures var d := DeploySpec(old(alreadyDeployed), old(fs.entries), fs.env, root, path);
              r == d.result && alreadyDeployed == d.cache && fs.entries == d.entries
    {
      if path in alreadyDeployed {
        return Ok(alreadyDeployed[path]);
      }
      var original := path;
      var realPath := fs.RealPath(path);
      if realPath.None? {
        return Err(ResourceNotFound(original));
      }
      r := DeployFile(fs, root, realPath.value);
      if r.Ok? {
        alreadyDeployed := alreadyDeployed[original := r.value];
      }
    }

    /** The part of `deployResource` after `realpath`: the folders, the copy and the URL. */
    static method DeployFile(fs: FileSystem, root: string, resolved: string) returns (r: Result<string, DeployError>)
      modifies fs
      ensures (r, fs.entries) == DeployResolved(old(fs.entries), fs.env, root, resolved)
    {
      var folder := EnsureFolder(fs, DeployedFolder);
      if folder.Err? {
        return Err(folder.error);
      }
      ghost var afterFolder := fs.entries;
      if !fs.Exists(resolved) {
        return Err(ResourceUnreadable(resolved));
      }
      var urlPath := "/deployed" + StrReplace("\\", "/", StrReplace(root, "", resolved));
      var localPath := root + urlPath;
      var dir := EnsureFolder(fs, Dirname(localPath));
      if dir.Err? {
        return Err(dir.error);
      }
      ghost var ready := fs.entries;
      var copied := RefreshCopy(fs, resolved, localPath);
      if copied.Err? {
        return Err(copied.error);
      }
      assert resolved in fs.entries;
      ghost var url := urlPath;
      var ext := ScriptExtension(resolved);
      if ext.Some? {
        urlPath := urlPath + "?" + IntToString(fs.MTime(resolved)) + ext.value;
      }
      AppendCacheBust(url, resolved, fs.MTime(resolved));
      assert DeployResolved(old(fs.entries), fs.env, root, resolved) == (Ok(url + CacheBust(resolved, fs.MTime(resolved))), fs.entries) by {
        assert MkdirIfMissing(old(fs.entries), fs.env, DeployedFolder) == Ok(afterFolder);
        assert MkdirIfMissing(afterFolder, fs.env, Dirname(localPath)) == Ok(ready);
        assert CopyIfStale(ready, fs.env, resolved, localPath) == Ok(fs.entries);
      }
      return Ok(urlPath);
    }

    /** The copy step: `if (!file_exists(local) || filemtime(resolved) > filemtime(local))` copy, and fail if that fails. */
    static method RefreshCopy(fs: FileSystem, resolved: string, local: string) returns (r: Result<(), DeployError>)
      requires resolved in fs.entries
      modifies fs
      ensures var c := CopyIfStale(old(fs.entries), fs.env, resolved, local);
              (r.Ok? <==> c.Ok?) && (r.Err? ==> r.error == c.error && fs.entries == old(fs.entries)) &&
              (r.Ok? ==> fs.entries == c.value)
    {
      if !fs.Exists(local) || fs.MTime(resolved) > fs.MTime(local) {
        var ok := fs.Copy(resolved, local);
        if !ok {
          return Err(CopyFailed(resolved));
        }
      }
      return Ok(());
    }

    /** `deployResourceContent(content, simulatedPath)`; the cache is not involved. */
    method DeployResourceContent(fs: FileSystem, content: string, simulated: string) returns (r: Result<string, DeployError>)
      modifies fs
      ensures (r, fs.entries) == ContentSpec(old(fs.entries), fs.env, content, simulated)
    {
      var folder := EnsureFolder(fs, DeployedFolder);
      if folder.Err? {
        return Err(folder.error);
      }
      var urlPath := "deployed/" + simulated;
      var dir := EnsureFolder(fs, Dirname(urlPath));
      if dir.Err? {
        return Err(dir.error);
      }
      var written := fs.PutContents(urlPath, content);
      if written.None? || written.value == 0 {
        return Err(FileNotCreated(urlPath));
      }
      return Ok("/" + urlPath);
    }
  }
}

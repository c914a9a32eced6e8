/** The part of the host filesystem that `fs::create_dir` touches: a set of existing directory paths.
    Creating a directory fails when the path already exists or when its parent directory does not. */
module FileSystem {
  import opened Wrappers

  datatype IoError = AlreadyExists(path: string) | NotFound(path: string)

  /** The directory holding path: everything before its last '/', or "" when there is none. */
  function Parent(path: string): (p: string)
    ensures |p| <= |path| && p == path[..|p|]
    ensures '/' in path ==> |p| < |path| && path[|p|] == '/' && '/' !in path[|p| + 1..]
    ensures '/' !in path ==> p == []
  {
    if |path| == 0 then []
    else if path[|path| - 1] == '/' then path[..|path| - 1]
    else Parent(path[..|path| - 1])
  }

  /** A path built from a directory, a separator and a name that holds no separator has that directory as parent. */
  lemma {:induction false} ParentOfChild(dir: string, name: string)
    requires '/' !in name
    ensures Parent(dir + "/" + name) == dir
  {
    if |name| > 0 {
      var n' := name[..|name| - 1];
      assert (dir + "/" + name)[..|dir + "/" + name| - 1] == dir + "/" + n';
      ParentOfChild(dir, n');
    } else {
      assert (dir + "/")[..|dir|] == dir;
    }
  }

  /** The error `fs::create_dir` reports for path, if any. */
  function MkdirError(dirs: set<string>, path: string): (r: Option<IoError>)
    ensures r.None? <==> path !in dirs && Parent(path) in dirs
  {
    if path in dirs then Some(AlreadyExists(path))
    else if Parent(path) !in dirs then Some(NotFound(path))
    else None
  }

  /** The directories that exist, and every creation request issued so far, in order. */
  class Disk {
    var dirs: set<string>
    var requests: seq<string>

    constructor (existing: set<string>)
      ensures dirs == existing && requests == []
    {
      dirs := existing;
      requests := [];
    }

    /** Creates one directory; the request is recorded whether or not it succeeds. */
    method CreateDir(path: string) returns (err: Option<IoError>)
      modifies this
      ensures requests == old(requests) + [path]
      ensures err == MkdirError(old(dirs), path)
      ensures dirs == if err.None? then old(dirs) + {path} else old(dirs)
    {
      requests := requests + [path];
      err := MkdirError(dirs, path);
      if err.None? {
        dirs := dirs + {path};
      }
    }
  }
}

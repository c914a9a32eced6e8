/** The materialization engine (`FolderEngine` in src/folder_engine.rs): a walk over folder trees that issues
    one directory-creation request per folder, resolving leaf names against a table of named groups.

    The specification functions MakeDir, Walk, WalkName and WalkNamed give the exact effect of each engine
    method on the filesystem and on the path stack; the class FolderEngine is proved to have that effect.

    The source recurses without bound into a group that refers to itself. Here every group expansion
    spends one unit of `fuel`; when none is left the walk stops with Failed(Overflow). */
module Engine {
  import opened Wrappers
  import opened FolderTree
  import opened FileSystem

  /** The named groups: group name to the folders it stands for. */
  type Groups = map<string, seq<Folder>>

  datatype Failure = Io(error: IoError) | Overflow

  datatype Status = Done | Failed(failure: Failure)

  /** What a walk changes: the existing directories, the creation requests issued so far (in order),
      and the engine's path stack `current`. */
  datatype State = State(dirs: set<string>, requests: seq<string>, current: seq<string>)

  datatype Step = Step(state: State, status: Status)

  /** The segments joined with "/" between neighbours. */
  function Join(segments: seq<string>): (joined: string)
  {
    if |segments| == 0 then ""
    else if |segments| == 1 then segments[0]
    else segments[0] + "/" + Join(segments[1..])
  }

  lemma {:induction false} JoinSnoc(segments: seq<string>, name: string)
    requires |segments| > 0
    ensures Join(segments + [name]) == Join(segments) + "/" + name
  {
    if |segments| > 1 {
      assert (segments + [name])[1..] == segments[1..] + [name];
      JoinSnoc(segments[1..], name);
    } else {
      assert segments + [name] == [segments[0], name];
    }
  }

  /** The path that create_dir builds for name under the stack current:
      "./" followed by the stack and the name, separated by "/". */
  function DirPath(current: seq<string>, name: string): (path: string)
    ensures path == "./" + Join(current + [name])
  {
    if |current| == 0 then
      assert current + [name] == [name];
      "./" + name
    else
      JoinSnoc(current, name);
      "./" + Join(current) + "/" + name
  }

  /** The directory for a child x of the folder name, under current, sits directly in that folder's directory. */
  lemma DirPathParent(current: seq<string>, name: string, x: string)
    requires '/' !in x
    ensures Parent(DirPath(current + [name], x)) == DirPath(current, name)
  {
    JoinSnoc(current + [name], x);
    assert "./" + Join(current + [name] + [x]) == ("./" + Join(current + [name])) + "/" + x;
    ParentOfChild("./" + Join(current + [name]), x);
  }

  /** create_dir: one request for the folder's path at the current stack, which creates that directory
      exactly when it is new and its parent exists; the stack is not touched and the only failure is the OS error. */
  function MakeDir(st: State, name: string): (r: Step)
    ensures r.state.requests == st.requests + [DirPath(st.current, name)]
    ensures r.state.current == st.current
    ensures r.status.Done? <==> DirPath(st.current, name) !in st.dirs && Parent(DirPath(st.current, name)) in st.dirs
    ensures r.state.dirs == if r.status.Done? then st.dirs + {DirPath(st.current, name)} else st.dirs
    ensures r.status.Failed? ==> r.status.failure.Io?
  {
    var path := DirPath(st.current, name);
    match MkdirError(st.dirs, path)
    case None => Step(State(st.dirs + {path}, st.requests + [path], st.current), Done)
    case Some(e) => Step(State(st.dirs, st.requests + [path], st.current), Failed(Io(e)))
  }

  /** create_folders: the nodes in order, stopping at the first failure. */
  function Walk(groups: Groups, st: State, nodes: seq<Folder>, fuel: nat): (r: Step)
    decreases fuel, nodes, 3
    ensures r.status.Done? ==> r.state.current == st.current
  {
    if |nodes| == 0 then Step(st, Done)
    else
      var first := WalkNode(groups, st, nodes[0], fuel);
      if first.status.Failed? then first
      else Walk(groups, first.state, nodes[1..], fuel)
  }

  /** One iteration of create_folders: a leaf goes to handle_name, an interior folder to handle_named_folder. */
  function WalkNode(groups: Groups, st: State, node: Folder, fuel: nat): (r: Step)
    decreases fuel, node, 2
    ensures r.status.Done? ==> r.state.current == st.current
  {
    match node
    case Final(name) => WalkName(groups, st, name, fuel)
    case TopLevel(name, children) => WalkNamed(groups, st, name, children, fuel)
  }

  /** handle_name: a name that is a group expands to the group's folders at the same stack;
      any other name is one directory. */
  function WalkName(groups: Groups, st: State, name: string, fuel: nat): (r: Step)
    decreases fuel, Final(name), 1
    ensures r.status.Done? ==> r.state.current == st.current
  {
    if name in groups then
      if fuel == 0 then Step(st, Failed(Overflow))
      else Walk(groups, st, groups[name], fuel - 1)
    else MakeDir(st, name)
  }

  /** handle_named_folder: the folder's own directory, then its children one level deeper, then the pop.
      A failure leaves the stack as it was at that moment; nothing is popped. */
  function WalkNamed(groups: Groups, st: State, name: string, children: seq<Folder>, fuel: nat): (r: Step)
    decreases fuel, TopLevel(name, children), 1
    ensures r.status.Done? ==> r.state.current == st.current
  {
    var made := MakeDir(st, name);
    if made.status.Failed? then made
    else
      var inner := Walk(groups, made.state.(current := made.state.current + [name]), children, fuel);
      if inner.status.Failed? then inner
      else Step(inner.state.(current := inner.state.current[..|inner.state.current| - 1]), Done)
  }

  class FolderEngine {
    /** The path stack: the names of the enclosing folders being created. */
    var current: seq<string>
    /** The group table, only read. */
    const groups: Groups

    constructor (groups: Groups)
      ensures this.groups == groups && current == []
    {
      this.groups := groups;
      current := [];
    }

    /** The disk together with this engine's stack. */
    function Snapshot(disk: Disk): State
      reads this, disk
    {
      State(disk.dirs, disk.requests, current)
    }

    method CreateDir(disk: Disk, name: string) returns (status: Status)
      modifies disk
      ensures Step(Snapshot(disk), status) == MakeDir(old(Snapshot(disk)), name)
    {
      var path := DirPath(current, name);
      var err := disk.CreateDir(path);
      status := if err.None? then Done else Failed(Io(err.value));
    }

    method HandleName(disk: Disk, name: string, fuel: nat) returns (status: Status)
      modifies this, disk
      decreases fuel, Final(name), 1
      ensures Step(Snapshot(disk), status) == WalkName(groups, old(Snapshot(disk)), name, fuel)
    {
      if name in groups {
        if fuel == 0 {
          status := Failed(Overflow);
        } else {
          status := CreateFolders(disk, groups[name], fuel - 1);
        }
      } else {
        status := CreateDir(disk, name);
      }
    }

    method HandleNamedFolder(disk: Disk, name: string, children: seq<Folder>, fuel: nat) returns (status: Status)
      modifies this, disk
      decreases fuel, TopLevel(name, children), 1
      ensures Step(Snapshot(disk), status) == WalkNamed(groups, old(Snapshot(disk)), name, children, fuel)
    {
      status := CreateDir(disk, name);
      if status.Failed? {
        return;
      }
      current := current + [name];
      status := CreateFolders(disk, children, fuel);
      if status.Failed? {
        return;
      }
      current := current[..|current| - 1];
    }

    method CreateFolders(disk: Disk, nodes: seq<Folder>, fuel: nat) returns (status: Status)
      modifies this, disk
      decreases fuel, nodes, 3
      ensures Step(Snapshot(disk), status) == Walk(groups, old(Snapshot(disk)), nodes, fuel)
    {
      status := Done;
      for i := 0 to |nodes|
        invariant status == Done
        invariant Walk(groups, old(Snapshot(disk)), nodes, fuel) == Walk(groups, Snapshot(disk), nodes[i..], fuel)
      {
        assert nodes[i..][0] == nodes[i] && nodes[i..][1..] == nodes[i + 1..];
        match nodes[i] {
          case Final(name) =>
            status := HandleName(disk, name, fuel);
          case TopLevel(name, children) =>
            status := HandleNamedFolder(disk, name, children, fuel);
        }
        if status.Failed? {
          return;
        }
      }
    }
  }
}

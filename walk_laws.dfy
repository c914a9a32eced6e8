/** Properties of the engine's walk: what one leaf or interior folder issues, the order of requests,
    stopping at the first failure, group expansion in place, the role of the expansion bound, and
    why a second run over the same directories fails. */
module WalkLaws {
  import opened Wrappers
  import opened FolderTree
  import opened FileSystem
  import opened Engine

  // ---------------------------------------------------------------- single steps

  /** A leaf that names no group issues exactly one request, for its own path at the current stack,
      and creates that directory exactly when it is new and its parent exists. */
  lemma LeafIsOneDirectory(groups: Groups, st: State, name: string, fuel: nat)
    requires name !in groups
    ensures var r := WalkName(groups, st, name, fuel);
            var path := DirPath(st.current, name);
            && r.state.requests == st.requests + [path]
            && r.state.current == st.current
            && (r.status.Done? <==> path !in st.dirs && Parent(path) in st.dirs)
            && r.state.dirs == (if r.status.Done? then st.dirs + {path} else st.dirs)
  {
  }

  /** At the root a single plain leaf s is the one request "./" + s. */
  lemma RootLeafPath(groups: Groups, dirs: set<string>, requests: seq<string>, name: string, fuel: nat)
    requires name !in groups
    ensures Walk(groups, State(dirs, requests, []), [Final(name)], fuel).state.requests == requests + ["./" + name]
  {
    var st := State(dirs, requests, []);
    var first := WalkNode(groups, st, Final(name), fuel);
    assert first == WalkName(groups, st, name, fuel) == MakeDir(st, name);
    assert DirPath([], name) == "./" + name;
    assert Walk(groups, st, [Final(name)], fuel) == (if first.status.Failed? then first else Walk(groups, first.state, [], fuel));
  }

  /** A leaf that names a group is replaced by the group's folders at the same stack; the leaf itself
      issues no create. With no expansion left the walk stops with Overflow. */
  lemma GroupExpandsInPlace(groups: Groups, st: State, name: string, fuel: nat)
    requires name in groups
    ensures WalkName(groups, st, name, fuel + 1) == Walk(groups, st, groups[name], fuel)
    ensures WalkName(groups, st, name, 0) == Step(st, Failed(Overflow))
  {
  }

  /** When the folder's own directory cannot be created, that one request is all that happens:
      nothing is pushed and no child is visited. */
  lemma NamedFailsAlone(groups: Groups, st: State, name: string, children: seq<Folder>, fuel: nat)
    requires MkdirError(st.dirs, DirPath(st.current, name)).Some?
    ensures WalkNamed(groups, st, name, children, fuel)
         == Step(State(st.dirs, st.requests + [DirPath(st.current, name)], st.current),
                 Failed(Io(MkdirError(st.dirs, DirPath(st.current, name)).value)))
  {
  }

  // ---------------------------------------------------------------- growth of the request log

  /** after only adds: the requests extend, the directories grow, and every new directory was requested. */
  ghost predicate Extends(before: State, after: State)
  {
    && before.requests <= after.requests
    && before.dirs <= after.dirs
    && forall p :: p in after.dirs && p !in before.dirs ==>
         exists k :: |before.requests| <= k < |after.requests| && after.requests[k] == p
  }

  lemma ExtendsTransitive(a: State, b: State, c: State)
    requires Extends(a, b) && Extends(b, c)
    ensures Extends(a, c)
  {
    forall p | p in c.dirs && p !in a.dirs
      ensures exists k :: |a.requests| <= k < |c.requests| && c.requests[k] == p
    {
      if p in b.dirs {
        var k :| |a.requests| <= k < |b.requests| && b.requests[k] == p;
        assert c.requests[k] == p;
      } else {
        var k :| |b.requests| <= k < |c.requests| && c.requests[k] == p;
      }
    }
  }

  lemma {:induction false} WalkExtends(groups: Groups, st: State, nodes: seq<Folder>, fuel: nat)
    decreases fuel, nodes, 3
    ensures Extends(st, Walk(groups, st, nodes, fuel).state)
  {
    if |nodes| > 0 {
      var first := WalkNode(groups, st, nodes[0], fuel);
      NodeExtends(groups, st, nodes[0], fuel);
      if first.status.Done? {
        WalkExtends(groups, first.state, nodes[1..], fuel);
        ExtendsTransitive(st, first.state, Walk(groups, st, nodes, fuel).state);
      }
    }
  }

  lemma {:induction false} NodeExtends(groups: Groups, st: State, node: Folder, fuel: nat)
    decreases fuel, node, 2
    ensures Extends(st, WalkNode(groups, st, node, fuel).state)
  {
    match node
    case Final(name) =>
      if name in groups && fuel > 0 {
        WalkExtends(groups, st, groups[name], fuel - 1);
      } else if name !in groups {
        assert MakeDir(st, name).state.requests[|st.requests|] == DirPath(st.current, name);
      }
    case TopLevel(name, children) =>
      var made := MakeDir(st, name);
      assert made.state.requests[|st.requests|] == DirPath(st.current, name);
      if made.status.Done? {
        var pushed := made.state.(current := made.state.current + [name]);
        WalkExtends(groups, pushed, children, fuel);
        ExtendsTransitive(st, pushed, Walk(groups, pushed, children, fuel).state);
      }
  }

  /** The directory of an interior folder is requested before anything its children request. */
  lemma NamedCreatesItselfFirst(groups: Groups, st: State, name: string, children: seq<Folder>, fuel: nat)
    ensures var r := WalkNamed(groups, st, name, children, fuel);
            && |st.requests| < |r.state.requests|
            && r.state.requests[..|st.requests|] == st.requests
            && r.state.requests[|st.requests|] == DirPath(st.current, name)
  {
    var made := MakeDir(st, name);
    if made.status.Done? {
      var pushed := made.state.(current := made.state.current + [name]);
      WalkExtends(groups, pushed, children, fuel);
      var inner := Walk(groups, pushed, children, fuel);
      assert inner.state.requests[|st.requests|] == made.state.requests[|st.requests|];
    }
  }

  // ---------------------------------------------------------------- order and the first failure

  /** Walking a + b is walking a, then, only if that succeeded, walking b from where a left off. */
  lemma {:induction false} WalkAppend(groups: Groups, st: State, a: seq<Folder>, b: seq<Folder>, fuel: nat)
    decreases |a|
    ensures Walk(groups, st, a + b, fuel)
         == (var r := Walk(groups, st, a, fuel); if r.status.Failed? then r else Walk(groups, r.state, b, fuel))
  {
    if |a| == 0 {
      assert a + b == b;
    } else {
      assert (a + b)[0] == a[0];
      assert (a + b)[1..] == a[1..] + b;
      var first := WalkNode(groups, st, a[0], fuel);
      if first.status.Done? {
        WalkAppend(groups, first.state, a[1..], b, fuel);
      }
    }
  }

  /** The first failure is the result of the whole walk: the nodes after it issue no request. */
  lemma FirstFailureStops(groups: Groups, st: State, a: seq<Folder>, b: seq<Folder>, fuel: nat)
    requires Walk(groups, st, a, fuel).status.Failed?
    ensures Walk(groups, st, a + b, fuel) == Walk(groups, st, a, fuel)
  {
    WalkAppend(groups, st, a, b, fuel);
  }

  // ---------------------------------------------------------------- the expansion bound

  /** Any answer other than Overflow does not depend on the bound: one more unit changes nothing. */
  lemma {:induction false} WalkFuelMonotone(groups: Groups, st: State, nodes: seq<Folder>, fuel: nat)
    decreases fuel, nodes, 3
    requires Walk(groups, st, nodes, fuel).status != Failed(Overflow)
    ensures Walk(groups, st, nodes, fuel + 1) == Walk(groups, st, nodes, fuel)
  {
    if |nodes| > 0 {
      var first := WalkNode(groups, st, nodes[0], fuel);
      NodeFuelMonotone(groups, st, nodes[0], fuel);
      if first.status.Done? {
        WalkFuelMonotone(groups, first.state, nodes[1..], fuel);
      }
    }
  }

  lemma {:induction false} NodeFuelMonotone(groups: Groups, st: State, node: Folder, fuel: nat)
    decreases fuel, node, 2
    requires WalkNode(groups, st, node, fuel).status != Failed(Overflow)
    ensures WalkNode(groups, st, node, fuel + 1) == WalkNode(groups, st, node, fuel)
  {
    match node
    case Final(name) =>
      if name in groups {
        WalkFuelMonotone(groups, st, groups[name], fuel - 1);
      }
    case TopLevel(name, children) =>
      var made := MakeDir(st, name);
      if made.status.Done? {
        WalkFuelMonotone(groups, made.state.(current := made.state.current + [name]), children, fuel);
      }
  }

  /** Any larger bound gives the same answer as a bound that does not overflow. */
  lemma {:induction false} WalkFuelIrrelevant(groups: Groups, st: State, nodes: seq<Folder>, fuel: nat, more: nat)
    requires fuel <= more
    requires Walk(groups, st, nodes, fuel).status != Failed(Overflow)
    ensures Walk(groups, st, nodes, more) == Walk(groups, st, nodes, fuel)
    decreases more - fuel
  {
    if fuel < more {
      WalkFuelMonotone(groups, st, nodes, fuel);
      WalkFuelIrrelevant(groups, st, nodes, fuel + 1, more);
    }
  }

  /** Group expansion is transparent: a reference to a group in a list walks exactly like the group's
      folders written in its place, same requests at the same depth. */
  lemma GroupReferenceIsTransparent(groups: Groups, st: State, name: string, rest: seq<Folder>, fuel: nat)
    requires name in groups
    requires Walk(groups, st, groups[name], fuel).status != Failed(Overflow)
    ensures Walk(groups, st, [Final(name)] + rest, fuel + 1) == Walk(groups, st, groups[name] + rest, fuel + 1)
  {
    var inner := Walk(groups, st, groups[name], fuel);
    WalkFuelMonotone(groups, st, groups[name], fuel);
    WalkAppend(groups, st, groups[name], rest, fuel + 1);
    var nodes := [Final(name)] + rest;
    assert nodes[0] == Final(name) && nodes[1..] == rest;
    assert WalkNode(groups, st, nodes[0], fuel + 1) == inner;
    assert Walk(groups, st, nodes, fuel + 1) == (if inner.status.Failed? then inner else Walk(groups, inner.state, rest, fuel + 1));
  }

  /** The same at any position: after a, replacing the group's leaf by the group's folders changes nothing,
      given that the group's walk from where a leaves off does not overflow. */
  lemma GroupReferenceAnywhere(groups: Groups, st: State, a: seq<Folder>, name: string, rest: seq<Folder>, fuel: nat)
    requires name in groups
    requires Walk(groups, Walk(groups, st, a, fuel + 1).state, groups[name], fuel).status != Failed(Overflow)
    ensures Walk(groups, st, a + [Final(name)] + rest, fuel + 1) == Walk(groups, st, a + groups[name] + rest, fuel + 1)
  {
    assert a + [Final(name)] + rest == a + ([Final(name)] + rest);
    assert a + groups[name] + rest == a + (groups[name] + rest);
    WalkAppend(groups, st, a, [Final(name)] + rest, fuel + 1);
    WalkAppend(groups, st, a, groups[name] + rest, fuel + 1);
    var mid := Walk(groups, st, a, fuel + 1);
    if mid.status.Done? {
      GroupReferenceIsTransparent(groups, mid.state, name, rest, fuel);
    }
  }

  /** Every leaf name anywhere in the trees. */
  function Refs(nodes: seq<Folder>): (names: set<string>)
    decreases nodes, 1
  {
    if |nodes| == 0 then {} else NodeRefs(nodes[0]) + Refs(nodes[1..])
  }

  function NodeRefs(node: Folder): (names: set<string>)
    decreases node, 0
  {
    match node
    case Final(name) => {name}
    case TopLevel(_, children) => Refs(children)
  }

  /** rank orders the groups so that a group refers only to groups of lower rank; such a rank exists
      exactly when no group reaches itself through its references. */
  ghost predicate Ranked(groups: Groups, rank: map<string, nat>)
  {
    forall g :: g in groups ==> g in rank && Below(groups, rank, groups[g], rank[g])
  }

  /** Every group the nodes refer to has rank below bound. */
  ghost predicate Below(groups: Groups, rank: map<string, nat>, nodes: seq<Folder>, bound: nat)
  {
    forall n :: n in Refs(nodes) && n in groups ==> n in rank && rank[n] < bound
  }

  /** Over an acyclic table the walk never overflows once the bound exceeds the ranks referred to. */
  lemma {:induction false} RankedWalkNeverOverflows(groups: Groups, rank: map<string, nat>, st: State,
                                                    nodes: seq<Folder>, fuel: nat)
    decreases fuel, nodes, 3
    requires Ranked(groups, rank) && Below(groups, rank, nodes, fuel)
    ensures Walk(groups, st, nodes, fuel).status != Failed(Overflow)
  {
    if |nodes| > 0 {
      var first := WalkNode(groups, st, nodes[0], fuel);
      RankedNodeNeverOverflows(groups, rank, st, nodes[0], fuel);
      if first.status.Done? {
        RankedWalkNeverOverflows(groups, rank, first.state, nodes[1..], fuel);
      }
    }
  }

  lemma {:induction false} RankedNodeNeverOverflows(groups: Groups, rank: map<string, nat>, st: State,
                                                    node: Folder, fuel: nat)
    decreases fuel, node, 2
    requires Ranked(groups, rank)
    requires forall n :: n in NodeRefs(node) && n in groups ==> n in rank && rank[n] < fuel
    ensures WalkNode(groups, st, node, fuel).status != Failed(Overflow)
  {
    match node
    case Final(name) =>
      if name in groups {
        assert name in NodeRefs(node);
        RankedWalkNeverOverflows(groups, rank, st, groups[name], fuel - 1);
      }
    case TopLevel(name, children) =>
      var made := MakeDir(st, name);
      if made.status.Done? {
        RankedWalkNeverOverflows(groups, rank, made.state.(current := made.state.current + [name]), children, fuel);
      }
  }

  // ---------------------------------------------------------------- the stack after a failure

  /** The stack only grows below where the walk started: whatever the walk leaves behind extends st.current. */
  lemma {:induction false} WalkKeepsStackPrefix(groups: Groups, st: State, nodes: seq<Folder>, fuel: nat)
    decreases fuel, nodes, 3
    ensures st.current <= Walk(groups, st, nodes, fuel).state.current
  {
    if |nodes| > 0 {
      var first := WalkNode(groups, st, nodes[0], fuel);
      NodeKeepsStackPrefix(groups, st, nodes[0], fuel);
      if first.status.Done? {
        WalkKeepsStackPrefix(groups, first.state, nodes[1..], fuel);
      }
    }
  }

  lemma {:induction false} NodeKeepsStackPrefix(groups: Groups, st: State, node: Folder, fuel: nat)
    decreases fuel, node, 2
    ensures st.current <= WalkNode(groups, st, node, fuel).state.current
  {
    match node
    case Final(name) =>
      if name in groups && fuel > 0 {
        WalkKeepsStackPrefix(groups, st, groups[name], fuel - 1);
      }
    case TopLevel(name, children) =>
      var made := MakeDir(st, name);
      if made.status.Done? {
        WalkKeepsStackPrefix(groups, made.state.(current := made.state.current + [name]), children, fuel);
      }
  }

  /** Nothing is popped on the way out of a failure: when an interior folder's own directory was made
      but something below it failed, its name is still on the stack. */
  lemma NamedFailureLeavesPush(groups: Groups, st: State, name: string, children: seq<Folder>, fuel: nat)
    requires MkdirError(st.dirs, DirPath(st.current, name)).None?
    requires WalkNamed(groups, st, name, children, fuel).status.Failed?
    ensures st.current + [name] <= WalkNamed(groups, st, name, children, fuel).state.current
  {
    var made := MakeDir(st, name);
    WalkKeepsStackPrefix(groups, made.state.(current := made.state.current + [name]), children, fuel);
  }

  // ---------------------------------------------------------------- running twice

  /** A walk that succeeds without a single request (it only expanded groups that request nothing)
      succeeds without a request from any state with the same stack. */
  lemma {:induction false} SilentWalkAnywhere(groups: Groups, st: State, st2: State, nodes: seq<Folder>, fuel: nat)
    decreases fuel, nodes, 3
    requires st2.current == st.current
    requires Walk(groups, st, nodes, fuel).status.Done?
    requires |Walk(groups, st, nodes, fuel).state.requests| == |st.requests|
    ensures Walk(groups, st2, nodes, fuel) == Step(st2, Done)
  {
    if |nodes| > 0 {
      var first := WalkNode(groups, st, nodes[0], fuel);
      NodeExtends(groups, st, nodes[0], fuel);
      WalkExtends(groups, first.state, nodes[1..], fuel);
      SilentNodeAnywhere(groups, st, st2, nodes[0], fuel);
      assert first.state == st;
      SilentWalkAnywhere(groups, st, st2, nodes[1..], fuel);
    }
  }

  lemma {:induction false} SilentNodeAnywhere(groups: Groups, st: State, st2: State, node: Folder, fuel: nat)
    decreases fuel, node, 2
    requires st2.current == st.current
    requires WalkNode(groups, st, node, fuel).status.Done?
    requires |WalkNode(groups, st, node, fuel).state.requests| == |st.requests|
    ensures WalkNode(groups, st2, node, fuel) == Step(st2, Done)
  {
    match node
    case Final(name) =>
      if name in groups {
        SilentWalkAnywhere(groups, st, st2, groups[name], fuel - 1);
      }
    case TopLevel(name, children) =>
      NamedCreatesItselfFirst(groups, st, name, children, fuel);
  }

  /** Materializing is not idempotent: once a walk that issued a request has succeeded, the same walk
      over the directories it left fails at its first request, because that directory now exists. */
  lemma {:induction false} RepeatedWalkFails(groups: Groups, st: State, st2: State, nodes: seq<Folder>, fuel: nat)
    decreases fuel, nodes, 3
    requires Walk(groups, st, nodes, fuel).status.Done?
    requires |st.requests| < |Walk(groups, st, nodes, fuel).state.requests|
    requires st2.current == st.current && Walk(groups, st, nodes, fuel).state.dirs <= st2.dirs
    ensures Walk(groups, st2, nodes, fuel).status
         == Failed(Io(AlreadyExists(Walk(groups, st, nodes, fuel).state.requests[|st.requests|])))
  {
    var first := WalkNode(groups, st, nodes[0], fuel);
    var r := Walk(groups, st, nodes, fuel);
    NodeExtends(groups, st, nodes[0], fuel);
    WalkExtends(groups, first.state, nodes[1..], fuel);
    if |st.requests| < |first.state.requests| {
      assert r.state.requests[|st.requests|] == first.state.requests[|st.requests|];
      RepeatedNodeFails(groups, st, st2, nodes[0], fuel);
    } else {
      SilentNodeAnywhere(groups, st, st2, nodes[0], fuel);
      assert first.state == st;
      RepeatedWalkFails(groups, st, st2, nodes[1..], fuel);
    }
  }

  lemma {:induction false} RepeatedNodeFails(groups: Groups, st: State, st2: State, node: Folder, fuel: nat)
    decreases fuel, node, 2
    requires WalkNode(groups, st, node, fuel).status.Done?
    requires |st.requests| < |WalkNode(groups, st, node, fuel).state.requests|
    requires st2.current == st.current && WalkNode(groups, st, node, fuel).state.dirs <= st2.dirs
    ensures WalkNode(groups, st2, node, fuel).status
         == Failed(Io(AlreadyExists(WalkNode(groups, st, node, fuel).state.requests[|st.requests|])))
  {
    match node
    case Final(name) =>
      if name in groups {
        RepeatedWalkFails(groups, st, st2, groups[name], fuel - 1);
      }
    case TopLevel(name, children) =>
      var made := MakeDir(st, name);
      var pushed := made.state.(current := made.state.current + [name]);
      WalkExtends(groups, pushed, children, fuel);
      NamedCreatesItselfFirst(groups, st, name, children, fuel);
  }
}

/** Worked examples: whole runs over small documents, computed by the model. */
module Scenarios {
  import opened Wrappers
  import opened YamlValue
  import opened FolderTree
  import opened FileSystem
  import opened Engine
  import opened App

  lemma OneString(a: string)
    ensures FromArray([String(a)]) == Ok([Final(a)])
  {
    var arr := [String(a)];
    assert From(arr[0]) == Ok(Some(Final(a)));
    assert arr[1..] == [];
    assert [Final(a)] + [] == [Final(a)];
  }

  lemma TwoStrings(a: string, b: string)
    ensures FromArray([String(a), String(b)]) == Ok([Final(a), Final(b)])
  {
    var arr := [String(a), String(b)];
    OneString(b);
    assert From(arr[0]) == Ok(Some(Final(a)));
    assert arr[1..] == [String(b)];
    assert [Final(a)] + [Final(b)] == [Final(a), Final(b)];
  }

  /** A leaf that names no group, whose directory is new and sits in an existing directory, creates it. */
  lemma LeafCreated(groups: Groups, st: State, name: string, fuel: nat, dir: string)
    requires name !in groups && '/' !in name
    requires DirPath(st.current, name) == dir + "/" + name
    requires dir in st.dirs && dir + "/" + name !in st.dirs
    ensures WalkNode(groups, st, Final(name), fuel)
         == Step(State(st.dirs + {dir + "/" + name}, st.requests + [dir + "/" + name], st.current), Done)
  {
    ParentOfChild(dir, name);
  }

  /** A list of one item converts to that item's folder. */
  lemma OneItem(y: Yaml, f: Folder)
    requires From(y) == Ok(Some(f))
    ensures FromArray([y]) == Ok([f])
  {
    assert [y][1..] == [];
    assert [f] + [] == [f];
  }

  /** A walk whose first node succeeds continues from that node's state. */
  lemma WalkCons(groups: Groups, st: State, node: Folder, rest: seq<Folder>, fuel: nat, mid: State)
    requires WalkNode(groups, st, node, fuel) == Step(mid, Done)
    ensures Walk(groups, st, [node] + rest, fuel) == Walk(groups, mid, rest, fuel)
  {
    assert ([node] + rest)[0] == node && ([node] + rest)[1..] == rest;
  }

  /** A walk over one node is that node's step. */
  lemma WalkOne(groups: Groups, st: State, node: Folder, fuel: nat, out: State)
    requires WalkNode(groups, st, node, fuel) == Step(out, Done)
    ensures Walk(groups, st, [node], fuel) == Step(out, Done)
  {
    assert [node][1..] == [];
  }

  /** {folders: [a, {b: [c, d]}], shared: [x]} */
  function NestedDoc(): Yaml
  {
    Hash([(String("folders"), Array([String("a"), Hash([(String("b"), Array([String("c"), String("d")]))])])),
          (String("shared"), Array([String("x")]))])
  }

  /** {folders: [shared], shared: [x, y]} */
  function GroupDoc(): Yaml
  {
    Hash([(String("folders"), Array([String("shared")])),
          (String("shared"), Array([String("x"), String("y")]))])
  }

  /** The list [a, {b: [c, d]}] converts to a leaf and an interior folder. */
  lemma NestedFolders()
    ensures FromArray([String("a"), Hash([(String("b"), Array([String("c"), String("d")]))])])
         == Ok([Final("a"), TopLevel("b", [Final("c"), Final("d")])])
  {
    TwoStrings("c", "d");
    var top := [String("a"), Hash([(String("b"), Array([String("c"), String("d")]))])];
    assert From(top[0]) == Ok(Some(Final("a")));
    assert From(top[1]) == Ok(Some(TopLevel("b", [Final("c"), Final("d")])));
    assert top[1..] == [top[1]];
    OneItem(top[1], TopLevel("b", [Final("c"), Final("d")]));
    assert [Final("a")] + [TopLevel("b", [Final("c"), Final("d")])] == [Final("a"), TopLevel("b", [Final("c"), Final("d")])];
  }

  /** The group table of the nested document, and the group table the engine gets. */
  lemma NestedTable()
    ensures GroupTable(NestedDoc().entries)
         == Ok(map[FoldersKey := [Final("a"), TopLevel("b", [Final("c"), Final("d")])], "shared" := [Final("x")]])
  {
    var h := NestedDoc().entries;
    NestedFolders();
    OneString("x");
    assert h[..1][..0] == [] && h[..2][..1] == h[..1] && h[..2] == h;
    assert GroupTable(h[..1]) == Ok(map[FoldersKey := [Final("a"), TopLevel("b", [Final("c"), Final("d")])]]);
  }

  /** The groups of the nested document, once folders is taken out. */
  function NestedGroups(): Groups
  {
    map["shared" := [Final("x")]]
  }

  /** Inside ./b the leaf c becomes ./b/c. */
  lemma NestedC()
    ensures WalkNode(NestedGroups(), State({".", "./a", "./b"}, ["./a", "./b"], ["b"]), Final("c"), 1)
         == Step(State({".", "./a", "./b", "./b/c"}, ["./a", "./b", "./b/c"], ["b"]), Done)
  {
    var s2 := State({".", "./a", "./b"}, ["./a", "./b"], ["b"]);
    assert DirPath(["b"], "c") == "./b/c" == "./b" + "/" + "c";
    LeafCreated(NestedGroups(), s2, "c", 1, "./b");
    assert s2.dirs + {"./b/c"} == {".", "./a", "./b", "./b/c"} && s2.requests + ["./b/c"] == ["./a", "./b", "./b/c"];
  }

  /** Then the leaf d becomes ./b/d. */
  lemma NestedD()
    ensures WalkNode(NestedGroups(), State({".", "./a", "./b", "./b/c"}, ["./a", "./b", "./b/c"], ["b"]), Final("d"), 1)
         == Step(State({".", "./a", "./b", "./b/c", "./b/d"}, ["./a", "./b", "./b/c", "./b/d"], ["b"]), Done)
  {
    var s3 := State({".", "./a", "./b", "./b/c"}, ["./a", "./b", "./b/c"], ["b"]);
    assert DirPath(["b"], "d") == "./b/d" == "./b" + "/" + "d";
    LeafCreated(NestedGroups(), s3, "d", 1, "./b");
    assert s3.dirs + {"./b/d"} == {".", "./a", "./b", "./b/c", "./b/d"}
        && s3.requests + ["./b/d"] == ["./a", "./b", "./b/c", "./b/d"];
  }

  /** Inside ./b the leaves c and d become ./b/c and ./b/d. */
  lemma NestedInner()
    ensures Walk(NestedGroups(), State({".", "./a", "./b"}, ["./a", "./b"], ["b"]), [Final("c"), Final("d")], 1)
         == Step(State({".", "./a", "./b", "./b/c", "./b/d"}, ["./a", "./b", "./b/c", "./b/d"], ["b"]), Done)
  {
    var groups := NestedGroups();
    var s2 := State({".", "./a", "./b"}, ["./a", "./b"], ["b"]);
    var s3 := State({".", "./a", "./b", "./b/c"}, ["./a", "./b", "./b/c"], ["b"]);
    var s4 := State({".", "./a", "./b", "./b/c", "./b/d"}, ["./a", "./b", "./b/c", "./b/d"], ["b"]);
    NestedC();
    NestedD();
    WalkOne(groups, s3, Final("d"), 1, s4);
    WalkCons(groups, s2, Final("c"), [Final("d")], 1, s3);
    assert [Final("c")] + [Final("d")] == [Final("c"), Final("d")];
  }

  /** At the top, the leaf a becomes ./a. */
  lemma NestedA()
    ensures WalkNode(NestedGroups(), State({"."}, [], []), Final("a"), 1) == Step(State({".", "./a"}, ["./a"], []), Done)
  {
    var s0 := State({"."}, [], []);
    assert DirPath([], "a") == "./a" == "." + "/" + "a";
    LeafCreated(NestedGroups(), s0, "a", 1, ".");
    assert s0.dirs + {"./a"} == {".", "./a"} && s0.requests + ["./a"] == ["./a"];
  }

  /** The interior folder b makes ./b, its children, and pops back to the top. */
  lemma NestedB()
    ensures WalkNode(NestedGroups(), State({".", "./a"}, ["./a"], []), TopLevel("b", [Final("c"), Final("d")]), 1)
         == Step(State({".", "./a", "./b", "./b/c", "./b/d"}, ["./a", "./b", "./b/c", "./b/d"], []), Done)
  {
    var s1 := State({".", "./a"}, ["./a"], []);
    assert DirPath([], "b") == "./b" == "." + "/" + "b";
    ParentOfChild(".", "b");
    assert s1.dirs + {"./b"} == {".", "./a", "./b"} && s1.requests + ["./b"] == ["./a", "./b"];
    assert MakeDir(s1, "b") == Step(State({".", "./a", "./b"}, ["./a", "./b"], []), Done);
    NestedInner();
    assert ["b"][..0] == [];
  }

  /** The top-level walk of the nested document. */
  lemma NestedWalk()
    ensures Walk(NestedGroups(), State({"."}, [], []), [Final("a"), TopLevel("b", [Final("c"), Final("d")])], 1)
         == Step(State({".", "./a", "./b", "./b/c", "./b/d"}, ["./a", "./b", "./b/c", "./b/d"], []), Done)
  {
    var groups := NestedGroups();
    var s0 := State({"."}, [], []);
    var s1 := State({".", "./a"}, ["./a"], []);
    var s4 := State({".", "./a", "./b", "./b/c", "./b/d"}, ["./a", "./b", "./b/c", "./b/d"], []);
    NestedA();
    NestedB();
    WalkOne(groups, s1, TopLevel("b", [Final("c"), Final("d")]), 1, s4);
    WalkCons(groups, s0, Final("a"), [TopLevel("b", [Final("c"), Final("d")])], 1, s1);
    assert [Final("a")] + [TopLevel("b", [Final("c"), Final("d")])] == [Final("a"), TopLevel("b", [Final("c"), Final("d")])];
  }

  /** Parents first, in document order; the unused group issues nothing. */
  lemma NestedRun()
    ensures Run(NestedDoc(), {"."}, [], 1)
         == Report({".", "./a", "./b", "./b/c", "./b/d"}, ["./a", "./b", "./b/c", "./b/d"], Message(Finished))
  {
    var folders := [Final("a"), TopLevel("b", [Final("c"), Final("d")])];
    var table := map[FoldersKey := folders, "shared" := [Final("x")]];
    NestedTable();
    assert table - {FoldersKey} == NestedGroups();
    NestedWalk();
  }

  /** The group of the second document, once folders is taken out. */
  function SharedGroups(): Groups
  {
    map["shared" := [Final("x"), Final("y")]]
  }

  /** The group table of the second document. */
  lemma GroupTableOfGroupDoc()
    ensures GroupTable(GroupDoc().entries)
         == Ok(map[FoldersKey := [Final("shared")], "shared" := [Final("x"), Final("y")]])
  {
    var h := GroupDoc().entries;
    TwoStrings("x", "y");
    OneString("shared");
    assert h[..1][..0] == [] && h[..2][..1] == h[..1] && h[..2] == h;
    assert GroupTable(h[..1]) == Ok(map[FoldersKey := [Final("shared")]]);
  }

  /** The group's first folder, x, at the top of the stack. */
  lemma SharedX()
    ensures WalkNode(SharedGroups(), State({"."}, [], []), Final("x"), 0) == Step(State({".", "./x"}, ["./x"], []), Done)
  {
    var s0 := State({"."}, [], []);
    assert DirPath([], "x") == "./x" == "." + "/" + "x";
    LeafCreated(SharedGroups(), s0, "x", 0, ".");
    assert s0.dirs + {"./x"} == {".", "./x"} && s0.requests + ["./x"] == ["./x"];
  }

  /** Then its second folder, y. */
  lemma SharedY()
    ensures WalkNode(SharedGroups(), State({".", "./x"}, ["./x"], []), Final("y"), 0)
         == Step(State({".", "./x", "./y"}, ["./x", "./y"], []), Done)
  {
    var s1 := State({".", "./x"}, ["./x"], []);
    assert DirPath([], "y") == "./y" == "." + "/" + "y";
    LeafCreated(SharedGroups(), s1, "y", 0, ".");
    assert s1.dirs + {"./y"} == {".", "./x", "./y"} && s1.requests + ["./y"] == ["./x", "./y"];
  }

  /** The group's own folders, walked at the top of the stack. */
  lemma SharedWalk()
    ensures Walk(SharedGroups(), State({"."}, [], []), [Final("x"), Final("y")], 0)
         == Step(State({".", "./x", "./y"}, ["./x", "./y"], []), Done)
  {
    var groups := SharedGroups();
    var s0 := State({"."}, [], []);
    var s1 := State({".", "./x"}, ["./x"], []);
    var s2 := State({".", "./x", "./y"}, ["./x", "./y"], []);
    SharedX();
    SharedY();
    WalkOne(groups, s1, Final("y"), 0, s2);
    WalkCons(groups, s0, Final("x"), [Final("y")], 0, s1);
    assert [Final("x")] + [Final("y")] == [Final("x"), Final("y")];
  }

  /** The leaf `shared` stands for the group: its folders are created in place and no ./shared appears. */
  lemma GroupRun()
    ensures Run(GroupDoc(), {"."}, [], 1) == Report({".", "./x", "./y"}, ["./x", "./y"], Message(Finished))
  {
    var table := map[FoldersKey := [Final("shared")], "shared" := [Final("x"), Final("y")]];
    GroupTableOfGroupDoc();
    assert table - {FoldersKey} == SharedGroups();
    var s0 := State({"."}, [], []);
    var s2 := State({".", "./x", "./y"}, ["./x", "./y"], []);
    SharedWalk();
    assert WalkNode(SharedGroups(), s0, Final("shared"), 1) == Step(s2, Done);
    WalkOne(SharedGroups(), s0, Final("shared"), 1, s2);
  }

  /** Running the first document again over what it created fails at once on ./a. */
  lemma NestedRunTwice()
    ensures Run(NestedDoc(), {".", "./a", "./b", "./b/c", "./b/d"}, [], 1)
         == Report({".", "./a", "./b", "./b/c", "./b/d"}, ["./a"], Message(ErrorText(AlreadyExists("./a"))))
  {
    var folders := [Final("a"), TopLevel("b", [Final("c"), Final("d")])];
    var table := map[FoldersKey := folders, "shared" := [Final("x")]];
    NestedTable();
    assert table - {FoldersKey} == NestedGroups();
    var groups := NestedGroups();
    var s0 := State({".", "./a", "./b", "./b/c", "./b/d"}, [], []);
    assert DirPath([], "a") == "./a";
    assert WalkName(groups, s0, "a", 1) == MakeDir(s0, "a");
    assert WalkNode(groups, s0, Final("a"), 1) == Step(s0.(requests := ["./a"]), Failed(Io(AlreadyExists("./a"))));
  }

  /** A list with a string, a mapping whose first key is not a string, and an integer keeps only the string. */
  lemma MalformedEntriesDropped()
    ensures FromArray([String("v"), Hash([(Integer(1), Array([])), (String("w"), Array([]))]), Integer(3)])
         == Ok([Final("v")])
  {
    var arr := [String("v"), Hash([(Integer(1), Array([])), (String("w"), Array([]))]), Integer(3)];
    assert From(arr[0]) == Ok(Some(Final("v")));
    assert From(arr[1]) == Ok(None);
    assert From(arr[2]) == Ok(None);
    assert arr[1..][1..] == [Integer(3)] && arr[1..][1..][1..] == [];
    assert FromArray(arr[1..][1..]) == Ok([]);
    assert FromArray(arr[1..]) == Ok([]);
    assert [Final("v")] + [] == [Final("v")];
  }

  /** A group that refers to itself after a create stops at the repeated create, not at the bound. */
  lemma CycleStopsAtRepeatedCreate()
    ensures Walk(map["g" := [Final("x"), Final("g")]], State({"."}, [], []), [Final("g")], 2).status
         == Failed(Io(AlreadyExists("./x")))
  {
    var groups := map["g" := [Final("x"), Final("g")]];
    var s0 := State({"."}, [], []);
    var s1 := State({".", "./x"}, ["./x"], []);
    assert DirPath([], "x") == "./x" == "." + "/" + "x";
    LeafCreated(groups, s0, "x", 1, ".");
    assert s0.dirs + {"./x"} == s1.dirs && s0.requests + ["./x"] == s1.requests;
    WalkCons(groups, s0, Final("x"), [Final("g")], 1, s1);
    assert [Final("x")] + [Final("g")] == groups["g"];
    ParentOfChild(".", "x");
    var failed := Step(s1.(requests := ["./x", "./x"]), Failed(Io(AlreadyExists("./x"))));
    assert WalkNode(groups, s1, Final("x"), 0) == failed;
    assert Walk(groups, s1, [Final("x"), Final("g")], 0) == failed;
    assert WalkNode(groups, s1, Final("g"), 1) == failed;
    assert Walk(groups, s1, [Final("g")], 1) == failed;
    assert WalkNode(groups, s0, Final("g"), 2) == failed;
  }

  /** A string key with a value that is not a list is fatal for the whole document. */
  lemma NotAListIsFatal()
    ensures Run(Hash([(String("folders"), Array([Hash([(String("name"), Integer(5))])]))]), {"."}, [], 1)
         == Report({"."}, [], Exit(1, NotAListNotice("name")))
  {
  }
}

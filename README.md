# velcro folder materialization, in Dafny

velcro reads a YAML document and creates a directory tree from it. The model covers the program's two parts.

- **Tree conversion** (`src/folder_engine.rs`). A parsed YAML value becomes a `Folder` tree:
  - a string becomes a leaf (`Final`);
  - a mapping whose first entry is string → list becomes an interior folder (`TopLevel`);
  - a string key with any other value aborts the program;
  - every other shape is dropped.
- **Materialization** (`FolderEngine`, with `hash_to_map` and `begin` from `src/main.rs`):
  - every top-level string → list entry becomes a named group;
  - the `folders` group is taken out and walked in order;
  - a leaf naming a group expands to that group's folders in place;
  - any other leaf is one `create_dir`;
  - an interior folder creates its directory, pushes its name on the path stack, walks its children, and pops;
  - the first failure ends the walk.

Modules:

- `YamlValue` holds the parsed document, with yaml_rust's variants. A mapping is its sequence of pairs in document order.
- `FolderTree` holds `Folder` and the conversion functions. The abort (`exit(1)`) is the error result `NotAList(name)`.
- `FileSystem` has the disk as a class `Disk`:
  - `dirs` is the set of existing directories;
  - `requests` is the log of every `create_dir` call issued, which is also what the "Creating folder:" lines print.

  A create fails with `AlreadyExists` when the path exists, and with `NotFound` when its parent (the prefix before the last `/`) does not.
- `Engine` has the class `FolderEngine`, with the path stack `current` and a constant group table. Each of its methods is proved to change the disk and the stack as the specification functions say: `MakeDir`, `Walk`, `WalkName` and `WalkNamed`. The `for` loop of `CreateFolders` is proved against `Walk`.
- `WalkLaws` holds properties of the walk: order, growth of the request log, group expansion, the path stack, the expansion bound, and running twice.
- `App` holds `HashToMap`, a loop proved against the function `GroupTable`, and `Begin`, proved against the function `Run`. A run ends in one of four ways:
  - the returned message, either "Finished!" or the OS error's text;
  - a panic from a failed `expect`;
  - the `exit(1)` abort;
  - `StackExhausted`.
- `Scenarios` works through small documents to their exact directories and messages.

A group reached from `folders` that refers to itself, directly or through other groups, makes the Rust code expand it again (`src/folder_engine.rs:104-105`). When the second pass repeats a create of the first, that create fails and the `?` ends the run with the OS error: `{folders: [g], g: [x, g]}` stops with "File exists (os error 17)" on the second `./x` (`CycleStopsAtRepeatedCreate`). Only when every create on the cycle succeeds, or none is issued, as in `g: [g]` or `g: [{a: [g]}]`, does the code recurse without bound. A real run then ends in a stack overflow or, where each pass makes the path deeper (`./a/a/…`), possibly first in an OS path-length error, which is not modelled. A cycle that `folders` never reaches does nothing. The model bounds the depth of nested group expansions with a `fuel` parameter instead. Running out gives `Failed(Overflow)`, which `Begin` reports as `StackExhausted`. Several lemmas pin the bound down:

- `WalkFuelIrrelevant` shows that any other answer does not depend on the bound.
- `RankedWalkNeverOverflows` shows that with an acyclic group table the bound is never reached, once it exceeds the ranks of the groups in use.

Three behaviours of the code a reader might not expect. The model follows the code in each.

- A mapping with several entries is not dropped as such. Only its first entry is looked at (`FromHashFirstEntryOnly`). A mapping is dropped when that first key is not a string. `MalformedEntriesDropped` therefore shows the drop with a mapping whose first key is an integer.
- After a failure the path stack is not rolled back. The names pushed so far stay on it (`NamedFailureLeavesPush`). The program discards the engine after the walk returns, so nothing observes this.
- The group table is built from every top-level entry, `folders` included, before `folders` is taken out. So a malformed list anywhere at the top level aborts the program before a directory is created (`MalformedGroupCreatesNothing`).

## Model

| member | source | states |
|---|---|---|
| FolderTree.StringsConvertToLeaves | src/folder_engine.rs:24-36 | A list of plain strings, of any length, converts in order to one leaf (`from_string`) per string: nothing is dropped or reordered. |
| FolderTree.From | src/folder_engine.rs:59-65 | A string converts to the leaf of that name. Any value that is neither a string nor a mapping (number, boolean, list, null, alias) converts to nothing. Only a mapping can abort. |
| FolderTree.FromHash | src/folder_engine.rs:39-56 | Only a mapping whose first key is a string can abort. Only a first entry string → list gives a folder, and that folder is interior and named by the key. |
| FolderTree.FromHashCases | src/folder_engine.rs:39-56 | An empty mapping gives nothing. A non-string first key gives nothing. A string → list first entry gives `TopLevel(name, from_array(list))`, or that list's abort. A string key with any other value aborts with its name. |
| FolderTree.FromHashFirstEntryOnly | src/folder_engine.rs:40-45 | Everything after a mapping's first entry is ignored: the conversion of `h + rest` equals that of `[h[0]]`. |
| FolderTree.FromArray | src/folder_engine.rs:29-36 | The list converts without abort exactly when every element does. The result is no longer than the list. On abort, the error is that of the first element that aborts; all before it converted. |
| FolderTree.FromArrayKeepsInOrder | src/folder_engine.rs:29-36 | The result is exactly the `Some` conversions, picked at strictly increasing positions, with every position that yields a folder picked: the filter keeps order and drops only `None`. |
| FolderTree.FatalStopsConversion | src/folder_engine.rs:47-50 | An aborting element stops the whole list with its error, whatever follows it: abort is not a skip. |
| FileSystem.Parent | src/folder_engine.rs:98 | The parent of a path is the prefix before its last `/`, or empty when there is none. |
| FileSystem.ParentOfChild | src/folder_engine.rs:95 | The parent of `dir + "/" + name`, for a name without `/`, is `dir`. |
| FileSystem.MkdirError | src/folder_engine.rs:98 | A create succeeds exactly when the path is new and its parent exists. |
| FileSystem.Disk.CreateDir | src/folder_engine.rs:98 | The call is logged. The path is added to the directories exactly when the create succeeds, and the error is returned otherwise. |
| Engine.JoinSnoc | src/folder_engine.rs:95 | Joining one more segment adds `"/" + name` to the joined stack. |
| Engine.DirPath | src/folder_engine.rs:91-96 | Both branches (empty stack, non-empty stack) give `"./"` followed by the stack and the name joined with `/`. |
| Engine.DirPathParent | src/folder_engine.rs:91-96 | A child's path, made one level deeper, has as its parent the path of the folder that was pushed. Children therefore land inside their parent. |
| Engine.MakeDir | src/folder_engine.rs:91-98 | One request, for the path at the current stack. The directory is created exactly when it is new and its parent exists, and the directories are otherwise unchanged. The stack is untouched, and the only failure is the OS error. |
| Engine.Walk | src/folder_engine.rs:122-131 | A successful walk leaves the path stack as it found it. |
| Engine.WalkNode | src/folder_engine.rs:124-127 | A successful node, leaf or interior, leaves the path stack as it found it. |
| Engine.WalkName | src/folder_engine.rs:103-109 | A successful leaf leaves the path stack as it found it. |
| Engine.WalkNamed | src/folder_engine.rs:112-119 | A successful interior folder pops what it pushed: the stack is back to its value before the call. |
| Engine.FolderEngine.constructor | src/folder_engine.rs:83-88 | A new engine has an empty path stack and the given groups. |
| Engine.FolderEngine.CreateDir | src/folder_engine.rs:91-99 | One create at the current stack's path: the disk changes as `MakeDir` says and the stack does not. |
| Engine.FolderEngine.HandleName | src/folder_engine.rs:103-109 | The disk and the stack end as `WalkName` says: a group expands to a walk of its folders; any other name is one create. |
| Engine.FolderEngine.HandleNamedFolder | src/folder_engine.rs:112-119 | The disk and the stack end as `WalkNamed` says: create, push, walk the children, pop, with an early return on each failure. |
| Engine.FolderEngine.CreateFolders | src/folder_engine.rs:122-131 | The loop's disk and stack end as `Walk` says, the first failure is returned at once, and the group table is a constant. |
| WalkLaws.LeafIsOneDirectory | src/folder_engine.rs:91-108 | A leaf naming no group issues exactly one request, for its own path at the current stack. It creates that directory exactly when the directory is new and its parent exists, and leaves the stack alone. |
| WalkLaws.RootLeafPath | src/folder_engine.rs:92-93 | At the root, a plain leaf `s` is the single request `"./" + s`. |
| WalkLaws.GroupExpandsInPlace | src/folder_engine.rs:104-105 | A leaf naming a group is the walk of the group's folders at the same stack. The leaf itself issues no create; with no expansion left it stops with `Overflow`. |
| WalkLaws.GroupReferenceIsTransparent | src/folder_engine.rs:103-108 | At the head of a list, replacing a group's leaf by the group's folders gives the same outcome, with one more level of expansion allowed, provided the group's walk does not overflow at the bound. |
| WalkLaws.GroupReferenceAnywhere | src/folder_engine.rs:103-131 | The same after any prefix `a`: walking `a + [g] + rest` equals walking `a + groups[g] + rest`, provided the group's walk from where `a` leaves off does not overflow. |
| WalkLaws.NamedFailsAlone | src/folder_engine.rs:114 | If an interior folder's own directory cannot be created, that one request is all that happens. Nothing is pushed and no child is visited. |
| WalkLaws.NamedCreatesItselfFirst | src/folder_engine.rs:112-118 | An interior folder's own path is its first request, before anything its children request. |
| WalkLaws.NamedFailureLeavesPush | src/folder_engine.rs:114-117 | When a failure happens below an interior folder, its name is still on the stack: there is no rollback. |
| WalkLaws.WalkKeepsStackPrefix | src/folder_engine.rs:112-131 | Whatever the walk's outcome, the stack it leaves extends the stack it started with. |
| WalkLaws.NodeKeepsStackPrefix | src/folder_engine.rs:123-127 | The same for one node. |
| WalkLaws.ExtendsTransitive | src/folder_engine.rs:97-98 | Only-adding is transitive. |
| WalkLaws.WalkExtends | src/folder_engine.rs:122-131 | A walk only adds: the request log is extended, and the directories grow only by paths it requested. |
| WalkLaws.NodeExtends | src/folder_engine.rs:123-127 | The same for one node. |
| WalkLaws.WalkAppend | src/folder_engine.rs:123-128 | Walking `a + b` is walking `a`, then, only if that succeeded, walking `b` from where `a` left off. |
| WalkLaws.FirstFailureStops | src/folder_engine.rs:125-126 | Once part of the list fails, the nodes after it issue no request and the result is that failure. |
| WalkLaws.WalkFuelMonotone | src/folder_engine.rs:104-105 | One more level of group expansion changes no answer other than `Overflow`. |
| WalkLaws.NodeFuelMonotone | src/folder_engine.rs:104-105 | The same for one node. |
| WalkLaws.WalkFuelIrrelevant | src/folder_engine.rs:104-105 | Any larger expansion bound gives the same non-`Overflow` answer. |
| WalkLaws.RankedWalkNeverOverflows | src/folder_engine.rs:104-105 | With groups ranked so that each refers only to lower ranks (no cycle), the walk never overflows, given a bound above the ranks it uses. |
| WalkLaws.RankedNodeNeverOverflows | src/folder_engine.rs:104-105 | The same for one node. |
| WalkLaws.SilentWalkAnywhere | src/folder_engine.rs:122-131 | A walk that succeeds without a request succeeds without a request from any disk. |
| WalkLaws.SilentNodeAnywhere | src/folder_engine.rs:123-127 | The same for one node. |
| WalkLaws.RepeatedWalkFails | src/folder_engine.rs:91-131 | Running again, over the directories it left, a successful walk that issued at least one request fails with `AlreadyExists` at that walk's first request: materializing is not idempotent. A walk that issued no request is outside the lemma, and succeeds again. |
| WalkLaws.RepeatedNodeFails | src/folder_engine.rs:123-127 | The same for one node. |
| App.GroupTable | src/main.rs:38-48 | A built table holds at most one group per entry of the mapping. Which keys it holds, and their values, are stated by `GroupTableKeys` and `GroupTableValue`. |
| App.HashToMap | src/main.rs:38-48 | The insertion loop builds exactly `GroupTable` of the mapping, stopping at the first abort. |
| App.GroupTableErrorSticks | src/main.rs:41-45 | An abort in a prefix of the mapping is the abort of the whole mapping. |
| App.GroupTableOk | src/main.rs:41-45 | The table is built exactly when every string → list entry converts without abort. |
| App.GroupTableFirstError | src/main.rs:43 | A failed table's error is the abort of the first string → list entry whose list aborts; every earlier string → list entry converts. |
| App.GroupTableKeys | src/main.rs:41-45 | `k` is a key of the table exactly when some entry has key `String(k)` and a list value. Other entries are skipped. |
| App.GroupTableValue | src/main.rs:43 | The value at a key is `from_array` of the list of the last entry with that key, since a later insert replaces an earlier one. The model's sequence of pairs admits duplicate keys, which yaml_rust's `LinkedHashMap` never delivers; for a parsed document each key has one entry. |
| App.ErrorText | src/main.rs:58-61 | The text of an OS error is never "Finished!". |
| App.Conclude | src/main.rs:58-61 | The outcome is "Finished!" exactly when the walk succeeded, and `StackExhausted` exactly when the walk ran out of expansions. |
| App.Run | src/main.rs:51-62 | A run only adds: the request log is extended, the directories grow, and every new directory was requested. |
| App.Begin | src/main.rs:51-62 | The disk and the outcome end as `Run` says: not a mapping panics; an abort ends the process; a missing `folders` panics; otherwise the engine walks `folders` over the rest. |
| App.NotAMappingCreatesNothing | src/main.rs:52 | A document that is not a mapping panics with "Invalid yaml format. Aborting. " before any request. |
| App.MalformedGroupCreatesNothing | src/main.rs:53 | The first top-level list that aborts ends the process with its notice before any request, whether or not its group is ever used. |
| App.MissingFoldersCreatesNothing | src/main.rs:55 | Without a `folders` list the run panics with the "Missing top level 'folders' item" message before any request. |
| App.FinishedExactlyWhenWalkSucceeds | src/main.rs:55-61 | The engine's table never holds `folders`. The run prints "Finished!" exactly when the walk of `folders` succeeds, and the OS error's text when a create fails. |
| Scenarios.NestedFolders | src/folder_engine.rs:29-65 | `[a, {b: [c, d]}]` converts to `[Final(a), TopLevel(b, [Final(c), Final(d)])]`. |
| Scenarios.NestedTable | src/main.rs:38-48 | The table of `{folders: [a, {b: [c, d]}], shared: [x]}` has both lists. |
| Scenarios.NestedRun | src/main.rs:51-62 | That document creates `./a`, `./b`, `./b/c`, `./b/d` in that order and prints "Finished!". The unused group creates nothing. |
| Scenarios.GroupRun | src/folder_engine.rs:103-108 | `{folders: [shared], shared: [x, y]}` creates `./x` and `./y` and no `./shared`. |
| Scenarios.NestedRunTwice | src/folder_engine.rs:91-99 | Running the first document again fails at once on `./a` with "File exists (os error 17)". |
| Scenarios.MalformedEntriesDropped | src/folder_engine.rs:29-64 | `[v, {1: [], w: []}, 3]` converts to `[Final(v)]`. |
| Scenarios.CycleStopsAtRepeatedCreate | src/folder_engine.rs:98-125 | With `g: [x, g]`, walking `[g]` creates `./x`, expands `g` again and fails with `AlreadyExists("./x")` on the repeated create; the expansion bound is not what stops it. |
| Scenarios.NotAListIsFatal | src/folder_engine.rs:47-50 | A group body holding `{name: 5}` ends the process with "folder 'name' is not a list. Aborting..." and creates nothing. |

## Left out

- `main` is not modelled: the argument check, reading the file, the YAML parser and printing the final message. The parsed document is an input.
- The "Creating folder:" line that `create_dir` prints is represented only by the request log `Disk.requests`, with one entry per line.
- `fs::create_dir` fails in the model only because the path exists or its parent is missing. Permissions, read-only or full filesystems, and the other OS error kinds are foreign behaviour.
- Paths are compared as strings. There is no normalisation: names containing `/`, `.` or `..` are not resolved, and the empty name builds the path `"./"`, which the model creates when `"."` exists while `fs::create_dir("./")` fails because the directory exists.
- The text of an `io::Error` is modelled only for the two errors above, as the Linux strings.
- The hashing and iteration order of `HashMap` are not modelled. The group table is a Dafny `map`, and only lookups matter.
- The Rust lifetime `'a` is not modelled. The group table is a constant field.
- `exit(1)` is not modelled as ending the process from inside the conversion. The abort is an error value that `Begin` turns into `Exit(1, notice)`, with the notice the program prints first.
- Engine.Walk: the depth of nested group expansions is bounded by `fuel`. The Rust recursion has no bound; on a cycle reached from `folders` whose creates all succeed (or that issues none) it ends in a stack overflow or an OS path-length error, and the model reports `StackExhausted` instead. A cycle that repeats a create fails with that create's OS error in both. Interior folders do not consume fuel.

/** The top level of the program (`hash_to_map` and `begin` in src/main.rs): build the group table from the
    document's top-level mapping, take out the `folders` list, and walk it. Reading the file and parsing the
    text are left to the caller; the parsed document comes in as a Yaml value. */
module App {
  import opened Wrappers
  import opened YamlValue
  import opened FolderTree
  import opened FileSystem
  import opened Engine
  import opened WalkLaws

  /** A top-level entry that becomes a group: a string key with a list value. */
  predicate IsGroupEntry(e: (Yaml, Yaml))
  {
    e.0.String? && e.1.Array?
  }

  /** The table hash_to_map builds from the first entries of a mapping: each group entry, in order, inserts
      (or overwrites) its key with the conversion of its list. A fatal conversion error ends the build. */
  function GroupTable(h: seq<(Yaml, Yaml)>): (r: Result<Groups, ConvertError>)
    decreases |h|
    ensures r.Ok? ==> |r.value| <= |h|
  {
    if |h| == 0 then Ok(map[])
    else
      match GroupTable(h[..|h| - 1])
      case Err(e) => Err(e)
      case Ok(table) =>
        match h[|h| - 1]
        case (String(name), Array(arr)) =>
          (match FromArray(arr)
           case Ok(folders) => Ok(table[name := folders])
           case Err(e) => Err(e))
        case _ => Ok(table)
  }

  /** hash_to_map. The source ends the process from inside the conversion; here the error is returned. */
  method HashToMap(hash: seq<(Yaml, Yaml)>) returns (r: Result<Groups, ConvertError>)
    ensures r == GroupTable(hash)
  {
    var table: Groups := map[];
    for i := 0 to |hash|
      invariant GroupTable(hash[..i]) == Ok(table)
    {
      assert hash[..i + 1][..i] == hash[..i];
      match hash[i] {
        case (String(name), Array(arr)) =>
          var folders := FromArray(arr);
          if folders.Err? {
            GroupTableErrorSticks(hash, i + 1);
            return Err(folders.error);
          }
          table := table[name := folders.value];
        case _ =>
      }
    }
    assert hash[..|hash|] == hash;
    return Ok(table);
  }

  /** Once a prefix fails, the whole mapping fails with the same error. */
  lemma {:induction false} GroupTableErrorSticks(h: seq<(Yaml, Yaml)>, n: nat)
    requires n <= |h| && GroupTable(h[..n]).Err?
    ensures GroupTable(h) == GroupTable(h[..n])
    decreases |h| - n
  {
    if n < |h| {
      assert h[..n + 1][..n] == h[..n];
      GroupTableErrorSticks(h, n + 1);
    } else {
      assert h[..n] == h;
    }
  }

  /** The table is built exactly when every group entry's list converts. */
  lemma {:induction false} GroupTableOk(h: seq<(Yaml, Yaml)>)
    decreases |h|
    ensures GroupTable(h).Ok? <==> forall i :: 0 <= i < |h| && IsGroupEntry(h[i]) ==> FromArray(h[i].1.items).Ok?
  {
    if |h| > 0 {
      GroupTableOk(h[..|h| - 1]);
      AllConvertSnoc(h, h[..|h| - 1]);
    }
  }

  /** Every group entry of h converts exactly when every one of init, all but the last, does and the last does. */
  lemma AllConvertSnoc(h: seq<(Yaml, Yaml)>, init: seq<(Yaml, Yaml)>)
    requires |h| > 0 && init == h[..|h| - 1]
    ensures (forall i :: 0 <= i < |h| && IsGroupEntry(h[i]) ==> FromArray(h[i].1.items).Ok?)
       <==> (forall i :: 0 <= i < |init| && IsGroupEntry(init[i]) ==> FromArray(init[i].1.items).Ok?)
            && (IsGroupEntry(h[|h| - 1]) ==> FromArray(h[|h| - 1].1.items).Ok?)
  {
    if forall i :: 0 <= i < |h| && IsGroupEntry(h[i]) ==> FromArray(h[i].1.items).Ok? {
      forall i | 0 <= i < |init| && IsGroupEntry(init[i])
        ensures FromArray(init[i].1.items).Ok?
      {
        assert init[i] == h[i];
      }
    }
    if forall i :: 0 <= i < |init| && IsGroupEntry(init[i]) ==> FromArray(init[i].1.items).Ok? {
      forall i | 0 <= i < |h| - 1 && IsGroupEntry(h[i])
        ensures FromArray(h[i].1.items).Ok?
      {
        assert init[i] == h[i];
      }
    }
  }

  /** A failed build reports the error of the first group entry whose list does not convert. */
  lemma {:induction false} GroupTableFirstError(h: seq<(Yaml, Yaml)>)
    decreases |h|
    requires GroupTable(h).Err?
    ensures exists i :: 0 <= i < |h| && IsGroupEntry(h[i]) && FromArray(h[i].1.items) == Err(GroupTable(h).error)
                        && forall j :: 0 <= j < i && IsGroupEntry(h[j]) ==> FromArray(h[j].1.items).Ok?
  {
    var init := h[..|h| - 1];
    assert forall i :: 0 <= i < |init| ==> init[i] == h[i];
    if GroupTable(init).Err? {
      GroupTableFirstError(init);
      var i :| 0 <= i < |init| && IsGroupEntry(init[i]) && FromArray(init[i].1.items) == Err(GroupTable(init).error)
               && forall j :: 0 <= j < i && IsGroupEntry(init[j]) ==> FromArray(init[j].1.items).Ok?;
      assert IsGroupEntry(h[i]);
    } else {
      GroupTableOk(init);
      assert IsGroupEntry(h[|h| - 1]);
    }
  }

  /** The table holds key k exactly when some entry has key String(k) and a list value; entries with any
      other key or value are skipped. */
  lemma {:induction false} GroupTableKeys(h: seq<(Yaml, Yaml)>, k: string)
    decreases |h|
    requires GroupTable(h).Ok?
    ensures k in GroupTable(h).value <==> exists i :: 0 <= i < |h| && IsGroupEntry(h[i]) && h[i].0.str == k
  {
    if |h| > 0 {
      var init := h[..|h| - 1];
      assert forall i :: 0 <= i < |init| ==> init[i] == h[i];
      GroupTableKeys(init, k);
      if exists i :: 0 <= i < |init| && IsGroupEntry(init[i]) && init[i].0.str == k {
        var i :| 0 <= i < |init| && IsGroupEntry(init[i]) && init[i].0.str == k;
        assert IsGroupEntry(h[i]) && h[i].0.str == k;
      }
    }
  }

  /** The value of a key is the conversion of the list of the last group entry with that key. */
  lemma {:induction false} GroupTableValue(h: seq<(Yaml, Yaml)>, i: nat)
    decreases |h|
    requires GroupTable(h).Ok? && i < |h| && IsGroupEntry(h[i])
    requires forall j :: i < j < |h| && IsGroupEntry(h[j]) ==> h[j].0 != h[i].0
    ensures h[i].0.str in GroupTable(h).value && FromArray(h[i].1.items).Ok?
    ensures GroupTable(h).value[h[i].0.str] == FromArray(h[i].1.items).value
  {
    GroupTableOk(h);
    var init := h[..|h| - 1];
    if i < |h| - 1 {
      assert forall j :: 0 <= j < |init| ==> init[j] == h[j];
      GroupTableValue(init, i);
    }
  }

  // ---------------------------------------------------------------- begin

  /** How a run of the program ends. */
  datatype Outcome =
    | Message(text: string)            // begin returned this text; main prints it
    | Panic(reason: string)            // an `expect` failed with this message
    | Exit(code: int, notice: string)  // the conversion printed this notice and ended the process
    | StackExhausted                   // the group expansions went deeper than the bound

  const Finished := "Finished!"
  const InvalidFormat := "Invalid yaml format. Aborting. "
  const MissingFolders := "Missing top level 'folders' item"

  /** The text of a failed create_dir, as the Rust standard library displays the underlying OS error on Linux. */
  function ErrorText(e: IoError): (text: string)
    ensures text != Finished
  {
    match e
    case AlreadyExists(_) => "File exists (os error 17)"
    case NotFound(_) => "No such file or directory (os error 2)"
  }

  function NotAListNotice(name: string): (notice: string)
  {
    "folder '" + name + "' is not a list. Aborting..."
  }

  /** The reserved key of the folders to materialize. */
  const FoldersKey := "folders"

  /** The end of a run: the directories and requests on disk, and how the program ended. */
  datatype Report = Report(dirs: set<string>, requests: seq<string>, outcome: Outcome)

  /** What the walk's status is reported as. */
  function Conclude(status: Status): (o: Outcome)
    ensures o == Message(Finished) <==> status.Done?
    ensures o == StackExhausted <==> status == Failed(Overflow)
  {
    match status
    case Done => Message(Finished)
    case Failed(Io(e)) => Message(ErrorText(e))
    case Failed(Overflow) => StackExhausted
  }

  /** begin over a disk with directories dirs and earlier requests: the table is built first, then the
      folders list is taken out of it, and the rest is the engine's group table. A run only adds: the
      request log is extended and every new directory was requested. */
  function Run(doc: Yaml, dirs: set<string>, requests: seq<string>, fuel: nat): (r: Report)
    ensures Extends(State(dirs, requests, []), State(r.dirs, r.requests, []))
  {
    if !doc.Hash? then Report(dirs, requests, Panic(InvalidFormat))
    else
      match GroupTable(doc.entries)
      case Err(NotAList(name)) => Report(dirs, requests, Exit(1, NotAListNotice(name)))
      case Ok(table) =>
        if FoldersKey !in table then Report(dirs, requests, Panic(MissingFolders))
        else
          var step := Walk(table - {FoldersKey}, State(dirs, requests, []), table[FoldersKey], fuel);
          WalkExtends(table - {FoldersKey}, State(dirs, requests, []), table[FoldersKey], fuel);
          Report(step.state.dirs, step.state.requests, Conclude(step.status))
  }

  method Begin(doc: Yaml, disk: Disk, fuel: nat) returns (outcome: Outcome)
    modifies disk
    ensures Report(disk.dirs, disk.requests, outcome) == Run(doc, old(disk.dirs), old(disk.requests), fuel)
  {
    if !doc.Hash? {
      return Panic(InvalidFormat);
    }
    var built := HashToMap(doc.entries);
    if built.Err? {
      return Exit(1, NotAListNotice(built.error.name));
    }
    var table := built.value;
    if FoldersKey !in table {
      return Panic(MissingFolders);
    }
    var folders := table[FoldersKey];
    table := table - {FoldersKey};
    var engine := new FolderEngine(table);
    var status := engine.CreateFolders(disk, folders, fuel);
    outcome := Conclude(status);
  }

  // ---------------------------------------------------------------- properties of a run

  /** A document that is not a mapping stops the run before any directory is requested. */
  lemma NotAMappingCreatesNothing(doc: Yaml, dirs: set<string>, requests: seq<string>, fuel: nat)
    requires !doc.Hash?
    ensures Run(doc, dirs, requests, fuel) == Report(dirs, requests, Panic(InvalidFormat))
  {
  }

  /** A malformed group body anywhere in the document ends the process with code 1 before any request,
      whether or not the group is ever referred to. */
  lemma MalformedGroupCreatesNothing(h: seq<(Yaml, Yaml)>, i: nat, name: string, dirs: set<string>,
                                     requests: seq<string>, fuel: nat)
    requires i < |h| && IsGroupEntry(h[i]) && FromArray(h[i].1.items) == Err(NotAList(name))
    requires forall j :: 0 <= j < i && IsGroupEntry(h[j]) ==> FromArray(h[j].1.items).Ok?
    ensures Run(Hash(h), dirs, requests, fuel) == Report(dirs, requests, Exit(1, NotAListNotice(name)))
  {
    GroupTableOk(h);
    GroupTableFirstError(h);
    var k :| 0 <= k < |h| && IsGroupEntry(h[k]) && FromArray(h[k].1.items) == Err(GroupTable(h).error)
             && forall j :: 0 <= j < k && IsGroupEntry(h[j]) ==> FromArray(h[j].1.items).Ok?;
  }

  /** Without a `folders` entry holding a list the run stops before any directory is requested. */
  lemma MissingFoldersCreatesNothing(h: seq<(Yaml, Yaml)>, dirs: set<string>, requests: seq<string>, fuel: nat)
    requires GroupTable(h).Ok?
    requires forall i :: 0 <= i < |h| && IsGroupEntry(h[i]) ==> h[i].0.str != FoldersKey
    ensures Run(Hash(h), dirs, requests, fuel) == Report(dirs, requests, Panic(MissingFolders))
  {
    GroupTableKeys(h, FoldersKey);
  }

  /** The run prints "Finished!" exactly when the walk of the folders list succeeds, and the text of the
      error when a directory cannot be created. The table the engine gets never holds `folders`. */
  lemma FinishedExactlyWhenWalkSucceeds(h: seq<(Yaml, Yaml)>, dirs: set<string>, requests: seq<string>, fuel: nat)
    requires GroupTable(h).Ok? && FoldersKey in GroupTable(h).value
    ensures var table := GroupTable(h).value;
            var groups := table - {FoldersKey};
            var step := Walk(groups, State(dirs, requests, []), table[FoldersKey], fuel);
            && FoldersKey !in groups
            && (Run(Hash(h), dirs, requests, fuel).outcome == Message(Finished) <==> step.status.Done?)
            && (step.status.Failed? && step.status.failure.Io? ==>
                  Run(Hash(h), dirs, requests, fuel).outcome == Message(ErrorText(step.status.failure.error)))
  {
  }
}

/** The typed folder tree and its conversion from an untyped Yaml value
    (`Folder`, `from`, `from_hash`, `from_array`, `from_string` in src/folder_engine.rs). */
module FolderTree {
  import opened Wrappers
  import opened YamlValue

  /** A folder with no children (`Final`) or a folder with an ordered list of sub-folders (`TopLevel`). */
  datatype Folder = Final(name: string) | TopLevel(name: string, children: seq<Folder>)

  /** The one fatal conversion error: a string key whose value is not a list.
      The source prints the name and ends the process with exit code 1. */
  datatype ConvertError = NotAList(name: string)

  type Conversion = Result<Option<Folder>, ConvertError>

  /** from_string: the folder with no children of that name. */
  function FromString(name: string): (f: Folder)
    ensures f.Final? && f.name == name
  {
    Final(name)
  }

  /** Converts one Yaml value: a string is a leaf, a mapping is decided by its first entry,
      every other value (a number, a boolean, a list, null, an alias) converts to nothing.
      Only a mapping can abort. */
  function From(y: Yaml): (r: Conversion)
    decreases y, 1
    ensures y.String? ==> r == Ok(Some(Final(y.str)))
    ensures !y.String? && !y.Hash? ==> r == Ok(None)
    ensures r.Err? ==> y.Hash?
  {
    match y
    case String(name) => Ok(Some(FromString(name)))
    case Hash(h) => FromHash(h)
    case _ => Ok(None)
  }

  /** Only the first entry of the mapping is inspected; the loop in the source returns on its first iteration.
      Only a string first key can abort, and only a string key with a list gives a folder, named by that key. */
  function FromHash(h: seq<(Yaml, Yaml)>): (r: Conversion)
    decreases Hash(h), 0
    ensures r.Err? ==> |h| > 0 && h[0].0.String?
    ensures r.Ok? && r.value.Some? ==>
              |h| > 0 && h[0].0.String? && h[0].1.Array? && r.value.value.TopLevel? && r.value.value.name == h[0].0.str
  {
    if |h| == 0 then Ok(None)
    else
      match h[0]
      case (String(name), Array(arr)) =>
        (match FromArray(arr)
         case Ok(children) => Ok(Some(TopLevel(name, children)))
         case Err(e) => Err(e))
      case (String(name), _) => Err(NotAList(name))
      case _ => Ok(None)
  }

  /** Converts every element in order and keeps those that convert to a folder.
      A fatal error in any element ends the whole conversion with that error. */
  function FromArray(arr: seq<Yaml>): (r: Result<seq<Folder>, ConvertError>)
    decreases arr, 2
    ensures r.Ok? <==> forall i :: 0 <= i < |arr| ==> From(arr[i]).Ok?
    ensures r.Ok? ==> |r.value| <= |arr|
    ensures r.Err? ==> exists i :: 0 <= i < |arr| && From(arr[i]) == Err(r.error)
                                   && forall j :: 0 <= j < i ==> From(arr[j]).Ok?
  {
    if |arr| == 0 then Ok([])
    else
      match From(arr[0])
      case Err(e) => Err(e)
      case Ok(head) =>
        match FromArray(arr[1..])
        case Err(e) => Err(e)
        case Ok(tail) => Ok(if head.Some? then [head.value] + tail else tail)
  }

  /** A list of plain strings converts, in order, to one leaf per string: nothing is dropped or reordered. */
  lemma {:induction false} StringsConvertToLeaves(names: seq<string>)
    ensures FromArray(seq(|names|, i requires 0 <= i < |names| => String(names[i])))
         == Ok(seq(|names|, i requires 0 <= i < |names| => FromString(names[i])))
  {
    var ys := seq(|names|, i requires 0 <= i < |names| => String(names[i]));
    var fs := seq(|names|, i requires 0 <= i < |names| => FromString(names[i]));
    if |names| > 0 {
      StringsConvertToLeaves(names[1..]);
      assert ys[1..] == seq(|names[1..]|, i requires 0 <= i < |names[1..]| => String(names[1..][i]));
      assert fs == [FromString(names[0])] + seq(|names[1..]|, i requires 0 <= i < |names[1..]| => FromString(names[1..][i]));
    }
  }

  /** Only the first entry of a mapping decides; later entries are ignored. */
  lemma FromHashFirstEntryOnly(h: seq<(Yaml, Yaml)>, rest: seq<(Yaml, Yaml)>)
    requires |h| > 0
    ensures FromHash(h + rest) == FromHash([h[0]])
  {
    assert (h + rest)[0] == h[0];
  }

  /** The four outcomes of a mapping: nothing for an empty mapping or a non-string first key,
      an interior folder for a string key with a list, and the fatal error for a string key with anything else. */
  lemma FromHashCases(h: seq<(Yaml, Yaml)>)
    ensures |h| == 0 ==> FromHash(h) == Ok(None)
    ensures |h| > 0 && !h[0].0.String? ==> FromHash(h) == Ok(None)
    ensures |h| > 0 && h[0].0.String? && h[0].1.Array? ==>
              FromHash(h) == (match FromArray(h[0].1.items)
                              case Ok(children) => Ok(Some(TopLevel(h[0].0.str, children)))
                              case Err(e) => Err(e))
    ensures |h| > 0 && h[0].0.String? && !h[0].1.Array? ==> FromHash(h) == Err(NotAList(h[0].0.str))
  {
  }

  /** A malformed mapping is not skipped: once every earlier element converts, it ends the conversion of the
      whole list with its own error, whatever follows it. */
  lemma FatalStopsConversion(arr: seq<Yaml>, i: nat)
    requires i < |arr| && From(arr[i]).Err?
    requires forall j :: 0 <= j < i ==> From(arr[j]).Ok?
    ensures FromArray(arr) == Err(From(arr[i]).error)
  {
    var k :| 0 <= k < |arr| && From(arr[k]) == Err(FromArray(arr).error)
             && forall j :: 0 <= j < k ==> From(arr[j]).Ok?;
  }

  /** The conversion of each element of a list, position by position. */
  function Conversions(arr: seq<Yaml>): (cs: seq<Conversion>)
    ensures |cs| == |arr| && forall i :: 0 <= i < |arr| ==> cs[i] == From(arr[i])
  {
    seq(|arr|, i requires 0 <= i < |arr| => From(arr[i]))
  }

  /** idx lists, in increasing order, exactly the positions whose conversion is a folder,
      and out holds those folders in the same order. */
  ghost predicate Selects<T, E>(cs: seq<Result<Option<T>, E>>, idx: seq<nat>, out: seq<T>)
  {
    && |idx| == |out|
    && (forall k :: 0 <= k < |idx| ==> idx[k] < |cs| && cs[idx[k]] == Ok(Some(out[k])))
    && (forall k, l :: 0 <= k < l < |idx| ==> idx[k] < idx[l])
    && (forall i :: 0 <= i < |cs| && cs[i] != Ok(None) ==> i in idx)
  }

  /** A successful conversion keeps exactly the elements that convert to a folder, in their original order. */
  lemma {:induction false} FromArrayKeepsInOrder(arr: seq<Yaml>)
    requires FromArray(arr).Ok?
    ensures exists idx :: Selects(Conversions(arr), idx, FromArray(arr).value)
  {
    var cs := Conversions(arr);
    if |arr| == 0 {
      assert Selects(cs, [], []);
    } else {
      var tail := arr[1..];
      var out' := FromArray(tail).value;
      FromArrayKeepsInOrder(tail);
      var idx' :| Selects(Conversions(tail), idx', out');
      assert Conversions(tail) == cs[1..];
      var head := From(arr[0]).value;
      assert cs[0] == Ok(head);
      var shifted := SelectionShifted(cs, cs[1..], idx', out');
      var idx := SelectionPrepended(cs, out', shifted);
      assert FromArray(arr).value == if head.Some? then [head.value] + out' else out';
    }
  }

  /** A selection from the tail of cs, shifted by one, points at the same folders in cs. */
  lemma SelectionShifted<T, E>(cs: seq<Result<Option<T>, E>>, tail: seq<Result<Option<T>, E>>, idx': seq<nat>, out': seq<T>)
    returns (shifted: seq<nat>)
    requires |cs| > 0 && tail == cs[1..] && Selects(tail, idx', out')
    ensures |shifted| == |out'|
    ensures forall k, l :: 0 <= k < l < |shifted| ==> shifted[k] < shifted[l]
    ensures forall k :: 0 <= k < |shifted| ==> 0 < shifted[k] < |cs| && cs[shifted[k]] == Ok(Some(out'[k]))
    ensures forall i :: 0 < i < |cs| && cs[i] != Ok(None) ==> i in shifted
  {
    shifted := seq(|idx'|, k requires 0 <= k < |idx'| => idx'[k] + 1);
    forall k, l | 0 <= k < l < |shifted|
      ensures shifted[k] < shifted[l]
    {
      assert shifted[k] == idx'[k] + 1 && shifted[l] == idx'[l] + 1;
    }
    forall k | 0 <= k < |shifted|
      ensures 0 < shifted[k] < |cs| && cs[shifted[k]] == Ok(Some(out'[k]))
    {
      assert cs[shifted[k]] == tail[idx'[k]];
    }
    forall i | 0 < i < |cs| && cs[i] != Ok(None)
      ensures i in shifted
    {
      assert cs[i] == tail[i - 1];
      var k :| 0 <= k < |idx'| && idx'[k] == i - 1;
      assert shifted[k] == i;
    }
  }

  /** Putting the head's folder, if it has one, in front of a selection from the rest selects from all of cs. */
  lemma SelectionPrepended<T, E>(cs: seq<Result<Option<T>, E>>, out': seq<T>, shifted: seq<nat>) returns (idx: seq<nat>)
    requires |cs| > 0 && cs[0].Ok? && |shifted| == |out'|
    requires forall k, l :: 0 <= k < l < |shifted| ==> shifted[k] < shifted[l]
    requires forall k :: 0 <= k < |shifted| ==> 0 < shifted[k] < |cs| && cs[shifted[k]] == Ok(Some(out'[k]))
    requires forall i :: 0 < i < |cs| && cs[i] != Ok(None) ==> i in shifted
    ensures Selects(cs, idx, if cs[0].value.Some? then [cs[0].value.value] + out' else out')
  {
    if cs[0].value.Some? {
      idx := SelectionConsed(cs, cs[0].value.value, out', shifted);
    } else {
      idx := shifted;
    }
  }

  /** The case of SelectionPrepended where the head converts to a folder: position 0 comes first. */
  lemma SelectionConsed<T, E>(cs: seq<Result<Option<T>, E>>, head: T, out': seq<T>, shifted: seq<nat>) returns (idx: seq<nat>)
    requires |cs| > 0 && cs[0] == Ok(Some(head)) && |shifted| == |out'|
    requires forall k, l :: 0 <= k < l < |shifted| ==> shifted[k] < shifted[l]
    requires forall k :: 0 <= k < |shifted| ==> 0 < shifted[k] < |cs| && cs[shifted[k]] == Ok(Some(out'[k]))
    requires forall i :: 0 < i < |cs| && cs[i] != Ok(None) ==> i in shifted
    ensures Selects(cs, idx, [head] + out')
  {
    idx := [0] + shifted;
    var out := [head] + out';
    forall k | 0 <= k < |idx|
      ensures idx[k] < |cs| && cs[idx[k]] == Ok(Some(out[k]))
    {
      if k > 0 { assert idx[k] == shifted[k - 1] && out[k] == out'[k - 1]; }
    }
    forall k, l | 0 <= k < l < |idx|
      ensures idx[k] < idx[l]
    {
      assert idx[l] == shifted[l - 1];
      if k > 0 { assert idx[k] == shifted[k - 1]; }
    }
    forall i | 0 <= i < |cs| && cs[i] != Ok(None)
      ensures i in idx
    {
      if i > 0 {
        var k :| 0 <= k < |shifted| && shifted[k] == i;
        assert idx[k + 1] == i;
      }
    }
  }
}

/** `ShardWriter` of roles/k8s_dgx/files/sglang_cpu_shard.py and the index its `main` builds
    from the part files. A file name is its part number: the name depends on nothing else
    that varies within one run. */
module ShardWriting {

  /** `bytes` is the number of elements times their size. */
  datatype Tensor = Tensor(values: seq<int>, bytes: nat)

  /** A dict in the order of insertion. */
  type Dict = seq<(string, Tensor)>
  type File = map<string, Tensor>

  // ---- what was added ------------------------------------------------------------------

  /** The last tensor added under each name. */
  function Final(added: Dict): File {
    if added == [] then map[]
    else Final(added[..|added| - 1])[added[|added| - 1].0 := added[|added| - 1].1]
  }

  function Size(added: Dict): nat {
    if added == [] then 0 else Size(added[..|added| - 1]) + added[|added| - 1].1.bytes
  }

  ghost predicate DistinctNames(added: Dict) {
    forall i, j :: 0 <= i < j < |added| ==> added[i].0 != added[j].0
  }

  lemma {:induction false} FinalHasNames(added: Dict, name: string)
    ensures name in Final(added) <==> exists i :: 0 <= i < |added| && added[i].0 == name
  {
    if added != [] {
      var front := added[..|added| - 1];
      FinalHasNames(front, name);
      if i :| 0 <= i < |front| && front[i].0 == name { assert added[i].0 == name; }
      if i :| 0 <= i < |added| && added[i].0 == name && i < |front| { assert front[i].0 == name; }
      assert added[|added| - 1].0 in Final(added);
    }
  }

  /** With distinct names nothing is overwritten. */
  lemma {:induction false} FinalKeepsAll(added: Dict, i: nat)
    requires DistinctNames(added) && i < |added|
    ensures added[i].0 in Final(added) && Final(added)[added[i].0] == added[i].1
  {
    var front := added[..|added| - 1];
    if i < |front| {
      FinalKeepsAll(front, i);
      assert front[i] == added[i];
    }
  }

  // ---- what the files hold -------------------------------------------------------------

  ghost predicate Written(disk: map<nat, File>, part: nat) {
    forall p :: 0 <= p < part ==> p in disk && disk[p] != map[]
  }

  /** Later files win. */
  ghost function Overlay(disk: map<nat, File>, part: nat): File
    requires Written(disk, part)
  {
    if part == 0 then map[] else Overlay(disk, part - 1) + disk[part - 1]
  }

  ghost predicate NoOverlap(disk: map<nat, File>, part: nat, buffer: File)
    requires Written(disk, part)
  {
    && (forall p, q :: 0 <= p < q < part ==> disk[p].Keys !! disk[q].Keys)
    && (forall p :: 0 <= p < part ==> disk[p].Keys !! buffer.Keys)
  }

  lemma {:induction false} OverlayHas(disk: map<nat, File>, part: nat, p: nat)
    requires Written(disk, part) && p < part
    ensures disk[p].Keys <= Overlay(disk, part).Keys
  {
    if p < part - 1 { OverlayHas(disk, part - 1, p); }
  }

  lemma {:induction false} OverlayFrame(disk: map<nat, File>, disk': map<nat, File>, part: nat)
    requires Written(disk, part) && forall p :: 0 <= p < part ==> p in disk' && disk'[p] == disk[p]
    ensures Written(disk', part) && Overlay(disk', part) == Overlay(disk, part)
  {
    if part > 0 { OverlayFrame(disk, disk', part - 1); }
  }

  /** The state of a writer after `added`: files and buffer, overlaid, hold the last tensor of
      every name; no name is in two of them if none was added twice. */
  ghost predicate Conserves(disk: map<nat, File>, part: nat, buffer: File, added: Dict) {
    && Written(disk, part)
    && Overlay(disk, part) + buffer == Final(added)
    && (DistinctNames(added) ==> NoOverlap(disk, part, buffer))
  }

  lemma ConservesAdd(disk: map<nat, File>, part: nat, buffer: File, added: Dict, x: (string, Tensor))
    requires Conserves(disk, part, buffer, added)
    ensures Conserves(disk, part, buffer[x.0 := x.1], added + [x])
  {
    var more := added + [x];
    assert more[..|more| - 1] == added;
    if DistinctNames(more) {
      assert DistinctNames(added) by {
        forall i, j | 0 <= i < j < |added| ensures added[i].0 != added[j].0 { assert more[i].0 != more[j].0; }
      }
      FinalHasNames(added, x.0);
      forall i | 0 <= i < |added| ensures added[i].0 != x.0 { assert more[i].0 != more[|added|].0; }
      forall p | 0 <= p < part ensures x.0 !in disk[p] { OverlayHas(disk, part, p); }
    }
  }

  /** `save_file` under the name of the part; an older file of that name is replaced. */
  function SaveFile(disk: map<nat, File>, part: nat, file: File): map<nat, File> {
    disk[part := file]
  }

  /** All other files stay as they are. */
  lemma SavesOne(disk: map<nat, File>, part: nat, file: File)
    ensures SaveFile(disk, part, file).Keys == disk.Keys + {part} && SaveFile(disk, part, file)[part] == file
    ensures forall p :: p in disk && p != part ==> SaveFile(disk, part, file)[p] == disk[p]
  {
  }

  lemma SavedOverlay(disk: map<nat, File>, part: nat, buffer: File)
    requires Written(disk, part) && buffer != map[]
    ensures Written(SaveFile(disk, part, buffer), part + 1)
    ensures Overlay(SaveFile(disk, part, buffer), part + 1) + map[] == Overlay(disk, part) + buffer
  {
    OverlayFrame(disk, SaveFile(disk, part, buffer), part);
  }

  lemma SavedOverlap(disk: map<nat, File>, part: nat, buffer: File)
    requires Written(disk, part) && NoOverlap(disk, part, buffer) && Written(SaveFile(disk, part, buffer), part + 1)
    ensures NoOverlap(SaveFile(disk, part, buffer), part + 1, map[])
  {
  }

  lemma ConservesFlush(disk: map<nat, File>, part: nat, buffer: File, added: Dict)
    requires Conserves(disk, part, buffer, added) && buffer != map[]
    ensures Conserves(SaveFile(disk, part, buffer), part + 1, map[], added)
  {
    hide SaveFile, Overlay, Final, DistinctNames, Written, NoOverlap;
    SavedOverlay(disk, part, buffer);
    if DistinctNames(added) { SavedOverlap(disk, part, buffer); }
  }

  /** File `p` is the last one that holds the name. */
  ghost predicate IsLast(disk: map<nat, File>, part: nat, name: string, p: nat)
    requires Written(disk, part)
  {
    p < part && name in disk[p] && forall q :: p < q < part ==> name !in disk[q]
  }

  /** The index sends each name to the last file that holds it. */
  ghost predicate IsIndex(index: map<string, nat>, disk: map<nat, File>, part: nat)
    requires Written(disk, part)
  {
    && (forall name :: name in index ==> IsLast(disk, part, name, index[name]))
    && (forall name, p :: 0 <= p < part && name in disk[p] ==> name in index)
  }

  lemma {:induction false} OverlayIsLast(disk: map<nat, File>, part: nat, name: string, p: nat)
    requires Written(disk, part) && IsLast(disk, part, name, p)
    ensures name in Overlay(disk, part) && Overlay(disk, part)[name] == disk[p][name]
  {
    if p < part - 1 { OverlayIsLast(disk, part - 1, name, p); }
  }

  lemma {:induction false} OverlayComesFromAFile(disk: map<nat, File>, part: nat, name: string)
    requires Written(disk, part) && name in Overlay(disk, part)
    ensures exists p :: 0 <= p < part && name in disk[p]
  {
    if name !in disk[part - 1] { OverlayComesFromAFile(disk, part - 1, name); }
  }

  /** The index of a finished run: it names exactly what was added, and the file it names
      holds the last tensor added under that name. */
  lemma IndexFindsTheLast(index: map<string, nat>, disk: map<nat, File>, part: nat, added: Dict, name: string)
    requires Conserves(disk, part, map[], added) && IsIndex(index, disk, part)
    ensures name in index <==> exists i :: 0 <= i < |added| && added[i].0 == name
    ensures name in index ==> index[name] in disk && name in disk[index[name]] && name in Final(added)
                              && disk[index[name]][name] == Final(added)[name]
  {
    FinalHasNames(added, name);
    assert Overlay(disk, part) + map[] == Overlay(disk, part);
    if name in index {
      OverlayIsLast(disk, part, name, index[name]);
    } else if name in Overlay(disk, part) {
      OverlayComesFromAFile(disk, part, name);
    }
  }

  /** With distinct names every added tensor is in one file, the indexed one, and no other. */
  lemma EachTensorInOneFile(index: map<string, nat>, disk: map<nat, File>, part: nat, added: Dict, i: nat)
    requires Conserves(disk, part, map[], added) && IsIndex(index, disk, part)
    requires DistinctNames(added) && i < |added|
    ensures added[i].0 in index && index[added[i].0] < part && added[i].0 in disk[index[added[i].0]]
    ensures disk[index[added[i].0]][added[i].0] == added[i].1
    ensures forall p :: 0 <= p < part ==> (added[i].0 in disk[p] <==> p == index[added[i].0])
  {
    var name := added[i].0;
    IndexFindsTheLast(index, disk, part, added, name);
    FinalKeepsAll(added, i);
    forall p | 0 <= p < part ensures name in disk[p] <==> p == index[name] {
      if p < index[name] {
        assert disk[p].Keys !! disk[index[name]].Keys;
      }
    }
  }

  // ---- the writer ----------------------------------------------------------------------

  class ShardWriter {
    const maxSize: nat
    var buffer: File
    var bufferSize: nat
    var part: nat
    /** The files in the output directory by part number; others may lie there already. */
    var disk: map<nat, File>
    /** Everything added, and what was added since the last flush. */
    ghost var added: Dict
    ghost var recent: Dict

    ghost predicate Valid()
      reads this
    {
      Consistent(disk, part, buffer, bufferSize, added, recent)
    }

    constructor (limit: nat, found: map<nat, File>)
      ensures Valid() && maxSize == limit
      ensures disk == found && part == 0 && buffer == map[] && added == [] && recent == []
    {
      maxSize, buffer, bufferSize, part, disk, added, recent := limit, map[], 0, 0, found, [], [];
    }

    method BufferOne(name: string, tensor: Tensor)
      requires Valid()
      modifies `buffer, `bufferSize, `added, `recent
      ensures Valid() && added == old(added) + [(name, tensor)] && recent == old(recent) + [(name, tensor)]
    {
      ConsistentAdd(disk, part, buffer, bufferSize, added, recent, (name, tensor));
      hide Consistent;
      buffer := buffer[name := tensor];
      bufferSize := bufferSize + tensor.bytes;
      added, recent := added + [(name, tensor)], recent + [(name, tensor)];
    }

    method Buffer(tensors: Dict)
      requires Valid()
      modifies `buffer, `bufferSize, `added, `recent
      ensures Valid() && added == old(added) + tensors && recent == old(recent) + tensors
    {
      Steps(added, tensors, 0);
      Steps(recent, tensors, 0);
      hide *;
      var i := 0;
      while i < |tensors|
        invariant 0 <= i <= |tensors| && Valid()
        invariant added == old(added) + tensors[..i] && recent == old(recent) + tensors[..i]
        modifies `buffer, `bufferSize, `added, `recent
      {
        Steps(old(added), tensors, i);
        Steps(old(recent), tensors, i);
        BufferOne(tensors[i].0, tensors[i].1);
        assert [(tensors[i].0, tensors[i].1)] == [tensors[i]];
        i := i + 1;
      }
      assert tensors[..i] == tensors;
    }

    /** Buffer the tensors, then flush at the limit; so between calls the tensors in memory
        stay below it. */
    method Add(tensors: Dict)
      requires Valid()
      modifies this
      ensures Valid() && added == old(added) + tensors
      ensures if Size(old(recent) + tensors) >= maxSize && Final(old(recent) + tensors) != map[]
              then
                 && part == old(part) + 1
                 && disk == SaveFile(old(disk), old(part), Final(old(recent) + tensors)) && recent == []
              else part == old(part) && disk == old(disk) && recent == old(recent) + tensors
      ensures bufferSize < maxSize || buffer == map[]
    {
      hide Conserves, Final, Size, Ends, SaveFile;
      Buffer(tensors);
      if bufferSize >= maxSize {
        Flush();
      }
    }

    /** An empty buffer writes no file. */
    method Flush()
      requires Valid()
      modifies `buffer, `bufferSize, `part, `disk, `recent
      ensures Valid() && buffer == map[]
      ensures old(buffer) == map[] ==> part == old(part) && disk == old(disk) && recent == old(recent)
      ensures old(buffer) != map[] ==>
                part == old(part) + 1 && disk == SaveFile(old(disk), old(part), old(buffer)) && recent == []
    {
      if buffer == map[] {
        return;
      }
      ConsistentFlush(disk, part, buffer, bufferSize, added, recent);
      hide Consistent, SaveFile;
      disk, part := SaveFile(disk, part, buffer), part + 1;
      buffer, bufferSize, recent := map[], 0, [];
    }

    /** The loop over the part files; the entries of a later file replace earlier ones. */
    method WriteIndex() returns (index: map<string, nat>)
      requires Valid()
      ensures IsIndex(index, disk, part)
    {
      index := map[];
      var p := 0;
      while p < part
        invariant 0 <= p <= part && IsIndex(index, disk, p)
      {
        IndexStep(index, disk, part, p);
        hide IsIndex;
        index := IndexFile(index, disk[p].Keys, p);
        p := p + 1;
      }
    }
  }

  method IndexFile(index: map<string, nat>, names: set<string>, p: nat) returns (more: map<string, nat>)
    ensures more == index + map name | name in names :: p
  {
    more := index;
    var left := names;
    while left != {}
      invariant left <= names
      invariant more == index + map name | name in names - left :: p
      decreases |left|
    {
      var name :| name in left;
      more := more[name := p];
      left := left - {name};
    }
  }

  lemma IndexStep(index: map<string, nat>, disk: map<nat, File>, part: nat, p: nat)
    requires Written(disk, part) && p < part && IsIndex(index, disk, p)
    ensures IsIndex(index + map name | name in disk[p].Keys :: p, disk, p + 1)
  {
    var more := index + map name | name in disk[p].Keys :: p;
    forall name | name in more ensures IsLast(disk, p + 1, name, more[name]) {
      if name !in disk[p] { assert IsLast(disk, p, name, index[name]); }
    }
  }

  /** `recent` is the end of `added`. */
  ghost predicate Ends(added: Dict, recent: Dict) {
    |recent| <= |added| && recent == added[|added| - |recent|..]
  }

  /** The whole state of a writer. */
  ghost predicate Consistent(
    disk: map<nat, File>, part: nat, buffer: File, bufferSize: nat, added: Dict, recent: Dict)
  {
    Conserves(disk, part, buffer, added) && bufferSize == Size(recent) && buffer == Final(recent) && Ends(added, recent)
  }

  lemma ConsistentAdd(
    disk: map<nat, File>, part: nat, buffer: File, bufferSize: nat, added: Dict, recent: Dict, x: (string, Tensor))
    requires Consistent(disk, part, buffer, bufferSize, added, recent)
    ensures Consistent(disk, part, buffer[x.0 := x.1], bufferSize + x.1.bytes, added + [x], recent + [x])
  {
    ConservesAdd(disk, part, buffer, added, x);
    EndsGrows(added, recent, x);
    FinalGrows(recent, x);
    hide Conserves, Ends, Final, Size;
  }

  lemma EndsGrows(added: Dict, recent: Dict, x: (string, Tensor))
    requires Ends(added, recent)
    ensures Ends(added + [x], recent + [x])
  {
  }

  lemma FinalGrows(recent: Dict, x: (string, Tensor))
    ensures Final(recent + [x]) == Final(recent)[x.0 := x.1] && Size(recent + [x]) == Size(recent) + x.1.bytes
  {
    assert (recent + [x])[..|recent + [x]| - 1] == recent;
  }

  lemma ConsistentFlush(disk: map<nat, File>, part: nat, buffer: File, bufferSize: nat, added: Dict, recent: Dict)
    requires Consistent(disk, part, buffer, bufferSize, added, recent) && buffer != map[]
    ensures Consistent(SaveFile(disk, part, buffer), part + 1, map[], 0, added, [])
  {
    ConservesFlush(disk, part, buffer, added);
    hide Conserves, SaveFile;
  }

  lemma Steps(before: Dict, tensors: Dict, i: nat)
    ensures before + tensors[..0] == before
    ensures i < |tensors| ==> before + tensors[..i + 1] == before + tensors[..i] + [tensors[i]]
  {
  }

  /** A whole run: any tensors in any batches, then the last flush and the index. */
  method Run(batches: seq<Dict>, maxSize: nat, found: map<nat, File>)
    returns (w: ShardWriter, index: map<string, nat>)
    ensures Conserves(w.disk, w.part, map[], Flat(batches)) && IsIndex(index, w.disk, w.part)
  {
    w := new ShardWriter(maxSize, found);
    var i := 0;
    while i < |batches|
      invariant 0 <= i <= |batches| && fresh(w) && w.Valid() && w.added == Flat(batches[..i])
    {
      w.Add(batches[i]);
      assert batches[..i + 1][..i] == batches[..i];
      i := i + 1;
    }
    assert batches[..i] == batches;
    w.Flush();
    index := w.WriteIndex();
  }

  function Flat(batches: seq<Dict>): Dict {
    if batches == [] then [] else Flat(batches[..|batches| - 1]) + batches[|batches| - 1]
  }
}

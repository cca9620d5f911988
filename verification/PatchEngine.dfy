/** roles/k8s_dgx/files/sglang_patches/_patchlib.py: the transactional patch runner, with
    the anchor edits its patches are made of. */
module PatchEngine {
  import opened Options
  import opened Text

  predicate In(t: string, s: string) {
    Find(s, t, 0) >= 0
  }

  /** `s.replace(old, new, 1)` */
  function ReplaceFirst(s: string, old_: string, new_: string): string {
    var i := Find(s, old_, 0);
    if i < 0 then s else s[..i] + new_ + s[i + |old_|..]
  }

  /** `s.replace(old, new)`; an empty `old` is found around every character. */
  function ReplaceEvery(s: string, old_: string, new_: string): string
    decreases |s|
  {
    if old_ == "" then new_ + Interleave(s, new_)
    else
      var i := Find(s, old_, 0);
      if i < 0 then s else s[..i] + new_ + ReplaceEvery(s[i + |old_|..], old_, new_)
  }

  function Interleave(s: string, new_: string): string {
    if s == "" then "" else [s[0]] + new_ + Interleave(s[1..], new_)
  }

  /** One edit. `marker` is the already-applied probe; by default it is the new text. */
  datatype Edit =
    | Replace(old_: string, new_: string, marker: Option<string>)
    | ReplaceAll(old_: string, new_: string, marker: Option<string>)
    | ReplaceAny(variants: seq<(string, string)>, probe: string)
    | Prepend(text: string, probe: string)
  {
    function Probe(): string {
      match this
      case Replace(_, new_, marker) => if marker.Some? then marker.value else new_
      case ReplaceAll(_, new_, marker) => if marker.Some? then marker.value else new_
      case ReplaceAny(_, probe) => probe
      case Prepend(_, probe) => probe
    }

    /** The new buffer when the probe is absent; `None` when no anchor is there. */
    function Rewrite(code: string): Option<string> {
      match this
      case Replace(old_, new_, _) => if In(old_, code) then Some(ReplaceFirst(code, old_, new_)) else None
      case ReplaceAll(old_, new_, _) => if In(old_, code) then Some(ReplaceEvery(code, old_, new_)) else None
      case ReplaceAny(variants, _) => FirstVariant(code, variants)
      case Prepend(text, _) => Some(text + code)
    }

    /** The probe is looked for first, and the anchor only when it is absent. */
    function Apply(code: string): Option<string> {
      if In(Probe(), code) then Some(code) else Rewrite(code)
    }
  }

  function FirstVariant(code: string, variants: seq<(string, string)>): Option<string> {
    if variants == [] then None
    else if In(variants[0].0, code) then Some(ReplaceFirst(code, variants[0].0, variants[0].1))
    else FirstVariant(code, variants[1..])
  }

  /** `insert_after(anchor, text, marker)` */
  function InsertAfter(anchor: string, text: string, marker: string): Edit {
    Replace(anchor, anchor + text, Some(marker))
  }

  function ApplyAll(code: string, edits: seq<Edit>): Option<string>
    decreases |edits|
  {
    if edits == [] then Some(code)
    else
      var next := edits[0].Apply(code);
      if next.None? then None else ApplyAll(next.value, edits[1..])
  }

  /** A patch body: a group marker that ends it at once, if any, and its edits. */
  datatype PatchBody = PatchBody(gate: bool, guard: Option<string>, edits: seq<Edit>)

  datatype Report = GateNotMatched | TargetMissing | AnchorDrift | AlreadyApplied | Patched

  /** Nothing is left to do: the group marker or every probe is in the file. */
  predicate Settled(p: PatchBody, code: string) {
    (p.guard.Some? && In(p.guard.value, code)) || forall e :: e in p.edits ==> In(e.Probe(), code)
  }

  // ---- the class -----------------------------------------------------------------------

  class Patch {
    var code: string
    var changed: bool

    constructor ()
      ensures code == "" && !changed
    {
      code, changed := "", false;
    }

    /** Apply one edit to the buffer; `drift` is the exception for a missing anchor. */
    method Apply(e: Edit) returns (drift: bool)
      modifies this
      ensures drift == e.Apply(old(code)).None?
      ensures !drift ==> code == e.Apply(old(code)).value && changed == (old(changed) || !In(e.Probe(), old(code)))
      ensures drift ==> code == old(code) && changed == old(changed)
    {
      if In(e.Probe(), code) {
        return false;
      }
      match e {
        case Replace(old_, new_, _) =>
          if !In(old_, code) {
            return true;
          }
          code := ReplaceFirst(code, old_, new_);
        case ReplaceAll(old_, new_, _) =>
          if !In(old_, code) {
            return true;
          }
          code := ReplaceEvery(code, old_, new_);
        case ReplaceAny(variants, _) =>
          var i := 0;
          assert variants[0..] == variants;
          while i < |variants| && !In(variants[i].0, code)
            invariant i <= |variants| && FirstVariant(code, variants) == FirstVariant(code, variants[i..])
          {
            assert variants[i..][1..] == variants[i + 1..];
            i := i + 1;
          }
          if i == |variants| {
            return true;
          }
          code := ReplaceFirst(code, variants[i].0, variants[i].1);
        case Prepend(text, _) =>
          code := text + code;
      }
      changed := true;
      return false;
    }

    /** Run the body against the file and write back. All edits are made in the buffer; the
        file is written once, at the end, or not at all. */
    method Run(p: PatchBody, file: Option<string>) returns (after: Option<string>, report: Report)
      requires !changed
      modifies this
      ensures (after, report) == RunPatch(p, file)
      ensures after == file || (file.Some? && after == ApplyAll(file.value, p.edits))
    {
      if !p.gate {
        return file, GateNotMatched;
      }
      if file.None? {
        return file, TargetMissing;
      }
      code := file.value;
      ghost var content := file.value;
      if p.guard.Some? && In(p.guard.value, code) {
        return file, AlreadyApplied;
      }
      hide In, Edit.Apply, ApplyAll;
      ApplyStart(content, p.edits);
      for i := 0 to |p.edits|
        invariant Buffered(content, p.edits, i, code, changed)
      {
        ApplyStep(content, p.edits, i, code, changed);
        var drift := this.Apply(p.edits[i]);
        if drift {
          DriftEnds(content, p.edits, i);
          return file, AnchorDrift;
        }
      }
      ApplyEnd(content, p.edits, code, changed);
      if !changed {
        return file, AlreadyApplied;
      }
      return Some(code), Patched;
    }
  }

  /** What a run leaves in the file, and what it reports. */
  function RunPatch(p: PatchBody, file: Option<string>): (Option<string>, Report) {
    if !p.gate then (file, GateNotMatched)
    else if file.None? then (file, TargetMissing)
    else if p.guard.Some? && In(p.guard.value, file.value) then (file, AlreadyApplied)
    else
      var r := ApplyAll(file.value, p.edits);
      if r.None? then (file, AnchorDrift)
      else if forall e :: e in p.edits ==> In(e.Probe(), file.value) then (file, AlreadyApplied)
      else (r, Patched)
  }

  // ---- the buffer during a run ---------------------------------------------------------

  /** The first `i` edits are in the buffer; it counts as changed once a probe was absent. */
  ghost predicate Buffered(content: string, edits: seq<Edit>, i: nat, code: string, changed: bool) {
    && i <= |edits|
    && ApplyAll(content, edits[..i]) == Some(code)
    && (changed <==> exists j :: 0 <= j < i && !In(edits[j].Probe(), content))
    && (!changed ==> code == content)
  }

  lemma ApplyStart(content: string, edits: seq<Edit>)
    ensures Buffered(content, edits, 0, content, false)
  {
  }

  lemma {:induction false} ApplyAllSnoc(code: string, edits: seq<Edit>, e: Edit)
    ensures var r := ApplyAll(code, edits);
            ApplyAll(code, edits + [e]) == if r.None? then None else e.Apply(r.value)
    decreases |edits|
  {
    hide Edit.Apply;
    if edits == [] {
      assert edits + [e] == [e] && [e][1..] == [];
    } else {
      var next := edits[0].Apply(code);
      assert (edits + [e])[1..] == edits[1..] + [e];
      if next.Some? { ApplyAllSnoc(next.value, edits[1..], e); }
    }
  }

  lemma ApplyStep(content: string, edits: seq<Edit>, i: nat, code: string, changed: bool)
    requires Buffered(content, edits, i, code, changed) && i < |edits|
    ensures edits[i].Apply(code).None? ==> ApplyAll(content, edits[..i + 1]) == None
    ensures edits[i].Apply(code).Some? ==>
              Buffered(content, edits, i + 1, edits[i].Apply(code).value, changed || !In(edits[i].Probe(), code))
  {
    hide In, Find;
    assert edits[..i + 1] == edits[..i] + [edits[i]];
    ApplyAllSnoc(content, edits[..i], edits[i]);
    if edits[i].Apply(code).Some? && !changed && !In(edits[i].Probe(), code) {
      assert !In(edits[i].Probe(), content);
    }
  }

  lemma {:induction false} DriftEnds(content: string, edits: seq<Edit>, i: nat)
    requires i < |edits| && ApplyAll(content, edits[..i + 1]) == None
    ensures ApplyAll(content, edits) == None
    decreases |edits| - i
  {
    hide Edit.Apply;
    if i + 1 == |edits| {
      assert edits[..i + 1] == edits;
    } else {
      assert edits[..i + 2] == edits[..i + 1] + [edits[i + 1]];
      ApplyAllSnoc(content, edits[..i + 1], edits[i + 1]);
      DriftEnds(content, edits, i + 1);
    }
  }

  lemma ApplyEnd(content: string, edits: seq<Edit>, code: string, changed: bool)
    requires Buffered(content, edits, |edits|, code, changed)
    ensures ApplyAll(content, edits) == Some(code)
    ensures changed <==> exists e :: e in edits && !In(e.Probe(), content)
    ensures !changed ==> code == content
  {
    hide In, ApplyAll;
    assert edits[..|edits|] == edits;
    if e :| e in edits && !In(e.Probe(), content) {
      var j :| 0 <= j < |edits| && edits[j] == e;
    }
  }

  // ---- idempotence ---------------------------------------------------------------------

  lemma {:induction false} SettledEditsKeep(code: string, edits: seq<Edit>)
    requires forall e :: e in edits ==> In(e.Probe(), code)
    ensures ApplyAll(code, edits) == Some(code)
  {
    hide In;
    if edits != [] {
      assert edits[0] in edits;
      SettledEditsKeep(code, edits[1..]);
    }
  }

  /** A run finds nothing to do exactly if the file holds the group marker or every probe;
      then it leaves the file alone. */
  lemma AlreadyAppliedIffSettled(p: PatchBody, code: string)
    requires p.gate
    ensures RunPatch(p, Some(code)).1 == AlreadyApplied <==> Settled(p, code)
    ensures Settled(p, code) ==> RunPatch(p, Some(code)).0 == Some(code)
  {
    if forall e :: e in p.edits ==> In(e.Probe(), code) { SettledEditsKeep(code, p.edits); }
  }

  /** All patches that share a file, one after the other. */
  function RunSeries(patches: seq<PatchBody>, file: Option<string>): (Option<string>, seq<Report>)
    decreases |patches|
  {
    if patches == [] then (file, [])
    else
      var first := RunPatch(patches[0], file);
      var rest := RunSeries(patches[1..], first.0);
      (rest.0, [first.1] + rest.1)
  }

  predicate NothingToDo(reports: seq<Report>) {
    forall i :: 0 <= i < |reports| ==> reports[i] == GateNotMatched || reports[i] == AlreadyApplied
  }

  predicate AllSettled(patches: seq<PatchBody>, code: string) {
    forall i :: 0 <= i < |patches| && patches[i].gate ==> Settled(patches[i], code)
  }

  /** The lift to a whole series: a pass finds nothing to do, and changes nothing, exactly if
      every patch whose gate matches is settled in the file the pass begins with. */
  lemma {:induction false} SeriesIdempotentIffSettled(patches: seq<PatchBody>, code: string)
    ensures NothingToDo(RunSeries(patches, Some(code)).1) <==> AllSettled(patches, code)
    ensures AllSettled(patches, code) ==> RunSeries(patches, Some(code)).0 == Some(code)
    decreases |patches|
  {
    if patches != [] {
      var p, more := patches[0], patches[1..];
      if p.gate { AlreadyAppliedIffSettled(p, code); }
      RunGated(p, code);
      SeriesIdempotentIffSettled(more, code);
      hide RunPatch, Settled;
      SplitSettled(p, more, code);
      var first := RunPatch(p, Some(code));
      SplitReports(first.1, RunSeries(more, first.0).1);
      assert patches == [p] + more;
    }
  }

  predicate Drifted(reports: seq<Report>) {
    exists i :: 0 <= i < |reports| && (reports[i] == AnchorDrift || reports[i] == TargetMissing)
  }

  /** The file is written by the patches that report so, and by no others. */
  predicate Wrote(reports: seq<Report>) {
    exists i :: 0 <= i < |reports| && reports[i] == Patched
  }

  /** A pass without drift writes the file exactly if some patch whose gate matches is not
      settled; and without a write, drift or not, the file stays as it is. */
  lemma SeriesWritesIffUnsettled(patches: seq<PatchBody>, code: string)
    ensures var (after, reports) := RunSeries(patches, Some(code));
            && (!Drifted(reports) ==> (Wrote(reports) <==> !AllSettled(patches, code)))
            && (!Wrote(reports) ==> after == Some(code))
  {
    SeriesIdempotentIffSettled(patches, code);
    UnwrittenStays(patches, code);
    hide RunSeries, AllSettled;
  }

  lemma {:induction false} UnwrittenStays(patches: seq<PatchBody>, code: string)
    ensures !Wrote(RunSeries(patches, Some(code)).1) ==> RunSeries(patches, Some(code)).0 == Some(code)
    decreases |patches|
  {
    if patches != [] {
      var first := RunPatch(patches[0], Some(code));
      var rest := RunSeries(patches[1..], first.0);
      UnwrittenStays(patches[1..], code);
      OnlyPatchedWrites(patches[0], code);
      hide RunPatch;
      assert ([first.1] + rest.1)[0] == first.1;
      assert forall i :: 0 <= i < |rest.1| ==> ([first.1] + rest.1)[i + 1] == rest.1[i];
    }
  }

  lemma OnlyPatchedWrites(p: PatchBody, code: string)
    ensures RunPatch(p, Some(code)).1 != Patched ==> RunPatch(p, Some(code)).0 == Some(code)
  {
    if forall e :: e in p.edits ==> In(e.Probe(), code) { SettledEditsKeep(code, p.edits); }
  }

  lemma SplitSettled(p: PatchBody, more: seq<PatchBody>, code: string)
    ensures AllSettled([p] + more, code) <==> (p.gate ==> Settled(p, code)) && AllSettled(more, code)
  {
    hide Settled;
    var all := [p] + more;
    if AllSettled(all, code) {
      assert all[0] == p;
      assert forall i :: 0 <= i < |more| ==> more[i] == all[i + 1];
    }
  }

  lemma SplitReports(r: Report, more: seq<Report>)
    ensures NothingToDo([r] + more) <==> (r == GateNotMatched || r == AlreadyApplied) && NothingToDo(more)
  {
    var all := [r] + more;
    if NothingToDo(all) {
      assert all[0] == r;
      assert forall i :: 0 <= i < |more| ==> more[i] == all[i + 1];
    }
  }

  lemma RunGated(p: PatchBody, code: string)
    ensures !p.gate <==> RunPatch(p, Some(code)).1 == GateNotMatched
    ensures RunPatch(p, Some(code)).1 in {GateNotMatched, AlreadyApplied} ==> RunPatch(p, Some(code)).0 == Some(code)
  {
  }

  /** After its edit, the new text is in the buffer: the default probe works at once. */
  lemma ReplacedTextIsThere(code: string, old_: string, new_: string)
    requires In(old_, code)
    ensures In(new_, ReplaceFirst(code, old_, new_))
    // The usual edit appends to its anchor, so the anchor is no sign that work is left.
    ensures old_ <= new_ ==> In(old_, ReplaceFirst(code, old_, new_))
  {
    var i := Find(code, old_, 0);
    var r := ReplaceFirst(code, old_, new_);
    assert r[i..i + |new_|] == new_;
    Occurs(r, new_, i);
    if old_ <= new_ {
      assert r[i..i + |old_|] == r[i..i + |new_|][..|old_|] == old_;
      Occurs(r, old_, i);
    }
  }

  lemma Occurs(s: string, t: string, i: nat)
    requires At(s, i, t)
    ensures In(t, s)
  {
    FindIsFirst(s, t, 0);
  }

  /** `insert_after` with a marker from the text it inserts is done once: the anchor is still
      there, and yet a second time nothing is inserted. */
  lemma InsertAfterIsIdempotent(anchor: string, text: string, marker: string, code: string)
    requires In(anchor, code) && In(marker, anchor + text)
    ensures var e := InsertAfter(anchor, text, marker);
            && e.Apply(code).Some? && e.Apply(e.Apply(code).value) == e.Apply(code)
            && In(anchor, e.Apply(code).value) && In(marker, e.Apply(code).value)
  {
    if !In(marker, code) {
      ReplacedTextIsThere(code, anchor, anchor + text);
      InTransitive(marker, anchor + text, ReplaceFirst(code, anchor, anchor + text));
    }
    hide In, ReplaceFirst;
  }

  lemma InTransitive(r: string, s: string, t: string)
    requires In(r, s) && In(s, t)
    ensures In(r, t)
  {
    var i, j := Find(s, r, 0), Find(t, s, 0);
    FindIsFirst(s, r, 0);
    FindIsFirst(t, s, 0);
    hide Find, At;
    AtInside(r, s, t, i, j);
    Occurs(t, r, i + j);
  }

  lemma AtInside(r: string, s: string, t: string, i: nat, j: nat)
    requires At(s, i, r) && At(t, j, s)
    ensures At(t, i + j, r)
  {
    forall k | 0 <= k < |r| ensures t[i + j + k] == r[k] {
      assert s[i..i + |r|][k] == s[i + k] == t[j..j + |s|][i + k];
    }
  }

  /** A patch of one `replace` with the default probe is idempotent, whatever the file. */
  lemma SingleReplaceIsIdempotent(old_: string, new_: string, code: string)
    ensures var p := PatchBody(true, None, [Replace(old_, new_, None)]);
            var first := RunPatch(p, Some(code));
            first.1 != AnchorDrift ==> RunPatch(p, first.0) == (first.0, AlreadyApplied)
  {
    var e := Replace(old_, new_, None);
    var p := PatchBody(true, None, [e]);
    if !In(new_, code) && In(old_, code) {
      ReplacedTextIsThere(code, old_, new_);
      var r := ReplaceFirst(code, old_, new_);
      assert ApplyAll(code, [e]) == ApplyAll(r, [e][1..]) == Some(r);
      assert !In(p.edits[0].Probe(), code);
      AlreadyAppliedIffSettled(p, r);
    } else if In(new_, code) {
      AlreadyAppliedIffSettled(p, code);
    }
  }

  function OneReplace(old_: string, new_: string): PatchBody {
    PatchBody(true, None, [Replace(old_, new_, None)])
  }

  /** Probes do not always last. When two patches with default probes have both edited the
      file, a second pass finds nothing to do exactly if the second edit left the first one's
      text whole; if it did not but kept the anchor, the first patch edits the file again. */
  lemma RewrittenProbeIsLost(anchor: string, injected: string, old_: string, new_: string, code: string, after: string)
    requires RunSeries([OneReplace(anchor, injected), OneReplace(old_, new_)], Some(code))
          == (Some(after), [Patched, Patched])
    ensures var second := RunSeries([OneReplace(anchor, injected), OneReplace(old_, new_)], Some(after));
            && (NothingToDo(second.1) <==> In(injected, after))
            && (!In(injected, after) && In(anchor, after) ==>
                  && second.1[0] == Patched
                  && RunPatch(OneReplace(anchor, injected), Some(after)).0
                     == Some(ReplaceFirst(after, anchor, injected))
                  && ReplaceFirst(after, anchor, injected) != after)
  {
    var p, q := OneReplace(anchor, injected), OneReplace(old_, new_);
    SeriesOfTwo(p, q, Some(code));
    SeriesOfTwo(p, q, Some(after));
    RunOfOne(anchor, injected, code);
    RunOfOne(old_, new_, ReplaceFirst(code, anchor, injected));
    RunOfOne(anchor, injected, after);
    if In(anchor, after) { ReplacedTextIsThere(after, anchor, injected); }
    if In(old_, ReplaceFirst(code, anchor, injected)) {
      ReplacedTextIsThere(ReplaceFirst(code, anchor, injected), old_, new_);
    }
    hide RunPatch, RunSeries, In, ReplaceFirst;
    SeriesIdempotentIffSettled([p, q], after);
    assert AllSettled([p, q], after) <==> In(injected, after) && In(new_, after) by {
      assert [p, q][0] == p && [p, q][1] == q;
      SettledOne(anchor, injected, after);
      SettledOne(old_, new_, after);
      hide Settled;
    }
  }

  lemma SettledOne(old_: string, new_: string, code: string)
    ensures Settled(OneReplace(old_, new_), code) <==> In(new_, code)
  {
    hide In;
    assert Replace(old_, new_, None) in OneReplace(old_, new_).edits;
  }

  lemma SeriesOfTwo(p: PatchBody, q: PatchBody, file: Option<string>)
    ensures var first := RunPatch(p, file);
            var second := RunPatch(q, first.0);
            RunSeries([p, q], file) == (second.0, [first.1, second.1])
  {
    hide RunPatch;
    assert [p, q][1..] == [q] && [q][1..] == [];
    var first := RunPatch(p, file);
    var second := RunPatch(q, first.0);
    assert RunSeries([q], first.0) == (second.0, [second.1] + []);
    assert [second.1] + [] == [second.1] && [first.1] + [second.1] == [first.1, second.1];
  }

  lemma RunOfOne(old_: string, new_: string, code: string)
    ensures RunPatch(OneReplace(old_, new_), Some(code))
         == if In(new_, code) then (Some(code), AlreadyApplied)
            else if In(old_, code) then (Some(ReplaceFirst(code, old_, new_)), Patched)
            else (Some(code), AnchorDrift)
  {
    hide In, ReplaceFirst;
    var e := Replace(old_, new_, None);
    assert [e][1..] == [] && e in [e];
    assert ApplyAll(code, [e]) == e.Apply(code);
  }

  /** For example: both patches report success in the first pass, and the second pass applies
      the first one again. */
  lemma RewrittenProbeExample()
    ensures var inject := OneReplace("a", "ab");
            var rewrite := OneReplace("ab", "axb");
            && RunPatch(inject, Some("a")) == (Some("ab"), Patched)
            && RunPatch(rewrite, Some("ab")) == (Some("axb"), Patched)
            && RunPatch(inject, Some("axb")) == (Some("abxb"), Patched)
  {
    hide RunPatch;
    assert "a"[..0] + "ab" + "a"[1..] == "ab";
    assert "ab"[..0] + "axb" + "ab"[2..] == "axb";
    assert "axb"[..0] + "ab" + "axb"[1..] == "abxb";
    RunOfReplace("a", "a", "ab", 0);
    RunOfReplace("ab", "ab", "axb", 0);
    assert forall j: nat :: At("axb", j, "ab") ==> j <= 1;
    assert !At("axb", 0, "ab") && !At("axb", 1, "ab") by {
      assert "axb"[0..2][1] == 'x' && "axb"[1..3][0] == 'x';
    }
    RunOfReplace("axb", "a", "ab", 0);
  }

  lemma RunOfReplace(code: string, old_: string, new_: string, i: nat)
    requires At(code, i, old_) && (forall j: nat :: j < i ==> !At(code, j, old_))
    requires forall j: nat :: j + |new_| <= |code| ==> !At(code, j, new_)
    ensures RunPatch(OneReplace(old_, new_), Some(code)) ==
            (Some(code[..i] + new_ + code[i + |old_|..]), Patched)
  {
    FindUnique(code, old_, 0, i);
    FindIsFirst(code, new_, 0);
    var e := Replace(old_, new_, None);
    var r := code[..i] + new_ + code[i + |old_|..];
    assert ApplyAll(code, [e]) == ApplyAll(r, [e][1..]) == Some(r);
    assert e in [e] && !In(e.Probe(), code);
  }
}

/** What the edits and reports of roles/k8s_dgx/files/sglang_patches/_patchlib.py say about the
    characters of a file. */
module PatchMeaning {
  import opened Options
  import opened Text
  import opened PatchEngine

  // ---- replacing -----------------------------------------------------------------------

  /** The first occurrence is replaced, and nothing else changes. */
  lemma ReplaceFirstMeans(s: string, old_: string, new_: string)
    ensures !Contains(s, old_) ==> ReplaceFirst(s, old_, new_) == s
    ensures Contains(s, old_) ==>
              exists before: string, after: string ::
                && s == before + old_ + after && ReplaceFirst(s, old_, new_) == before + new_ + after
                && forall i: nat :: i < |before| ==> !At(s, i, old_)
  {
    var i := Find(s, old_, 0);
    FindIsFirst(s, old_, 0);
    if i >= 0 {
      assert s == s[..i] + old_ + s[i + |old_|..];
    }
  }

  /** The probe and the anchor are looked for as substrings. */
  lemma InMeans(t: string, s: string)
    ensures In(t, s) <==> Contains(s, t)
  {
    FindIsFirst(s, t, 0);
  }

  function JoinWith(parts: seq<string>, seam: string): string {
    if parts == [] then "" else if |parts| == 1 then parts[0] else parts[0] + seam + JoinWith(parts[1..], seam)
  }

  /** The parts between the occurrences, found from left to right without overlap. */
  ghost predicate Parts(s: string, old_: string, parts: seq<string>) {
    && parts != [] && s == JoinWith(parts, old_)
    && (forall i :: 0 <= i < |parts| - 1 ==> FirstAt(parts[i] + old_, old_, |parts[i]|))
    && !Contains(parts[|parts| - 1], old_)
  }

  ghost predicate FirstAt(s: string, t: string, i: nat) {
    At(s, i, t) && forall j: nat :: j < i ==> !At(s, j, t)
  }

  lemma JoinCons(part: string, parts: seq<string>, seam: string)
    requires parts != []
    ensures JoinWith([part] + parts, seam) == part + seam + JoinWith(parts, seam)
  {
    assert ([part] + parts)[1..] == parts;
  }

  lemma FirstPart(s: string, t: string, i: nat)
    requires FirstAt(s, t, i)
    ensures i + |t| <= |s| && FirstAt(s[..i] + t, t, i)
  {
    var head := s[..i] + t;
    assert head == s[..i + |t|];
    assert s == head + s[i + |t|..];
    forall j: nat | j + |t| <= |head| ensures At(head, j, t) == At(s, j, t) {
      AtInPrefix(head, s[i + |t|..], j, t);
    }
  }

  lemma PartsCons(s: string, old_: string, i: nat, parts: seq<string>)
    requires old_ != "" && FirstAt(s, old_, i) && i + |old_| <= |s| && Parts(s[i + |old_|..], old_, parts)
    ensures Parts(s, old_, [s[..i]] + parts)
  {
    var all := [s[..i]] + parts;
    FirstPart(s, old_, i);
    JoinCons(s[..i], parts, old_);
    assert s == s[..i] + old_ + s[i + |old_|..];
    hide FirstAt, Contains;
    forall k | 0 <= k < |all| - 1 ensures FirstAt(all[k] + old_, old_, |all[k]|) {
      if k > 0 { assert all[k] == parts[k - 1]; }
    }
  }

  /** Every occurrence is replaced: what stands between them is joined by the new text. */
  lemma {:induction false} ReplaceEveryMeans(s: string, old_: string, new_: string) returns (parts: seq<string>)
    requires old_ != ""
    ensures Parts(s, old_, parts) && ReplaceEvery(s, old_, new_) == JoinWith(parts, new_)
    decreases |s|
  {
    var i := Find(s, old_, 0);
    FindIsFirst(s, old_, 0);
    if i < 0 {
      parts := [s];
    } else {
      var rest := ReplaceEveryMeans(s[i + |old_|..], old_, new_);
      parts := [s[..i]] + rest;
      PartsCons(s, old_, i, rest);
      JoinCons(s[..i], rest, new_);
    }
  }

  /** An empty text is found in front of every character and at the end. */
  lemma {:induction false} ReplaceEmptyMeans(s: string, new_: string)
    ensures |ReplaceEvery(s, "", new_)| == |s| + (|s| + 1) * |new_|
    ensures forall i: nat :: i < |s| ==>
              var at := (i + 1) * |new_| + i;
              at < |ReplaceEvery(s, "", new_)| && ReplaceEvery(s, "", new_)[at] == s[i]
  {
    InterleaveAt(s, new_);
  }

  lemma {:induction false} InterleaveAt(s: string, new_: string)
    ensures |Interleave(s, new_)| == |s| + |s| * |new_|
    ensures forall i: nat :: i < |s| ==>
              i * |new_| + i < |Interleave(s, new_)| && Interleave(s, new_)[i * |new_| + i] == s[i]
  {
    if s != "" {
      var rest, head := s[1..], [s[0]] + new_;
      InterleaveAt(rest, new_);
      assert |s| * |new_| == |rest| * |new_| + |new_|;
      assert Interleave(s, new_) == head + Interleave(rest, new_);
      forall i: nat | i < |s|
        ensures i * |new_| + i < |Interleave(s, new_)| && Interleave(s, new_)[i * |new_| + i] == s[i]
      {
        if i > 0 {
          Behind(head, Interleave(rest, new_), (i - 1) * |new_| + (i - 1));
          assert i * |new_| + i == |head| + ((i - 1) * |new_| + (i - 1));
        }
      }
    }
  }

  lemma Behind(head: string, rest: string, k: nat)
    requires k < |rest|
    ensures (head + rest)[|head| + k] == rest[k]
  {
  }

  // ---- edits ---------------------------------------------------------------------------

  /** The first of several spellings that occurs is the one that is replaced. */
  lemma {:induction false} FirstVariantMeans(code: string, variants: seq<(string, string)>)
    ensures FirstVariant(code, variants) == None <==> forall v :: v in variants ==> !Contains(code, v.0)
    ensures FirstVariant(code, variants).Some? ==>
              exists i :: && 0 <= i < |variants| && Contains(code, variants[i].0)
                          && (forall j :: 0 <= j < i ==> !Contains(code, variants[j].0))
                          && FirstVariant(code, variants).value == ReplaceFirst(code, variants[i].0, variants[i].1)
  {
    hide Contains, ReplaceFirst, In;
    if variants != [] {
      InMeans(variants[0].0, code);
      if !In(variants[0].0, code) {
        FirstVariantMeans(code, variants[1..]);
        assert variants == [variants[0]] + variants[1..];
        if FirstVariant(code, variants).Some? {
          var rest := variants[1..];
          var i :| && 0 <= i < |rest| && Contains(code, rest[i].0)
                   && (forall j :: 0 <= j < i ==> !Contains(code, rest[j].0))
                   && FirstVariant(code, rest).value == ReplaceFirst(code, rest[i].0, rest[i].1);
          assert variants[i + 1] == rest[i];
          forall j | 0 <= j < i + 1 ensures !Contains(code, variants[j].0) {
            if j > 0 { assert variants[j] == rest[j - 1]; }
          }
        }
      }
    }
  }

  /** Nothing is left to do: the file holds the group marker, or every edit's probe. */
  lemma SettledMeans(p: PatchBody, code: string)
    ensures Settled(p, code) <==>
            || (p.guard.Some? && Contains(code, p.guard.value))
            || forall e :: e in p.edits ==> Contains(code, e.Probe())
  {
    hide Contains, In;
    if p.guard.Some? { InMeans(p.guard.value, code); }
    forall e | e in p.edits ensures In(e.Probe(), code) <==> Contains(code, e.Probe()) { InMeans(e.Probe(), code); }
  }

  /** The probe is the marker that was given or, for a replacement, the new text. */
  lemma ProbeMeans(old_: string, new_: string, marker: string)
    ensures Replace(old_, new_, None).Probe() == new_ && Replace(old_, new_, Some(marker)).Probe() == marker
    ensures ReplaceAll(old_, new_, None).Probe() == new_ && ReplaceAll(old_, new_, Some(marker)).Probe() == marker
  {
  }

  /** No anchor of the edit is there. */
  ghost predicate NoAnchor(e: Edit, code: string) {
    match e
    case Replace(old_, _, _) => !Contains(code, old_)
    case ReplaceAll(old_, _, _) => !Contains(code, old_)
    case ReplaceAny(variants, _) => forall v :: v in variants ==> !Contains(code, v.0)
    case Prepend(_, _) => false
  }

  /** An edit whose probe is there does nothing; without an anchor it drifts. */
  lemma EditMeans(e: Edit, code: string)
    ensures Contains(code, e.Probe()) ==> e.Apply(code) == Some(code)
    ensures !Contains(code, e.Probe()) ==> (e.Apply(code) == None <==> NoAnchor(e, code))
    ensures e.Prepend? && !Contains(code, e.Probe()) ==> e.Apply(code) == Some(e.text + code)
  {
    InMeans(e.Probe(), code);
    match e
    case Replace(old_, _, _) => InMeans(old_, code);
    case ReplaceAll(old_, _, _) => InMeans(old_, code);
    case ReplaceAny(variants, _) => FirstVariantMeans(code, variants);
    case Prepend(_, _) =>
  }

  /** A body drifts at the first edit that has neither probe nor anchor. */
  ghost predicate DriftsAt(code: string, edits: seq<Edit>, i: nat) {
    && i < |edits| && ApplyAll(code, edits[..i]).Some?
    && var buffer := ApplyAll(code, edits[..i]).value;
       !Contains(buffer, edits[i].Probe()) && NoAnchor(edits[i], buffer)
  }

  lemma {:induction false} DriftMeans(code: string, edits: seq<Edit>)
    ensures ApplyAll(code, edits) == None <==> exists i: nat :: DriftsAt(code, edits, i)
  {
    hide Edit.Apply, NoAnchor, Contains;
    if edits == [] {
    } else {
      var n := |edits| - 1;
      var init := edits[..n];
      assert edits == init + [edits[n]];
      ApplyAllSnoc(code, init, edits[n]);
      DriftMeans(code, init);
      forall i: nat | i < n ensures edits[..i] == init[..i] && edits[i] == init[i] {}
      if ApplyAll(code, init).Some? {
        EditMeans(edits[n], ApplyAll(code, init).value);
        assert ApplyAll(code, edits) == None ==> DriftsAt(code, edits, n);
      } else {
        var i: nat :| DriftsAt(code, init, i);
        assert DriftsAt(code, edits, i);
      }
      if i: nat :| DriftsAt(code, edits, i) {
        if i < n { assert DriftsAt(code, init, i); }
      }
    }
  }

  /** The report of a run, and what it leaves in the file: only a patch that reports so writes,
      and it writes all its edits. */
  lemma ReportMeans(p: PatchBody, file: Option<string>)
    ensures var (after, report) := RunPatch(p, file);
            && (report == GateNotMatched <==> !p.gate)
            && (report == TargetMissing <==> p.gate && file.None?)
            && (report == AlreadyApplied <==> p.gate && file.Some? && Settled(p, file.value))
            && (report == AnchorDrift <==>
                  p.gate && file.Some? && !Settled(p, file.value) && exists i: nat :: DriftsAt(file.value, p.edits, i))
            && (report == Patched ==> after == ApplyAll(file.value, p.edits))
            && (report != Patched ==> after == file)
  {
    hide DriftsAt, In;
    if file.Some? {
      DriftMeans(file.value, p.edits);
      if Settled(p, file.value) && p.gate { AlreadyAppliedIffSettled(p, file.value); }
      hide ApplyAll;
      if p.gate { AlreadyAppliedIffSettled(p, file.value); }
    }
  }
}

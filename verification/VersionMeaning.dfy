/** The verdicts of dgxarley/k3shelperstuff/pin_drift.py component by component. */
module VersionMeaning {
  import opened VersionOrder

  /** At component `i` the candidate is greater, and before it nothing differs. */
  predicate GreaterAt(pinned: Key, candidate: Key, i: nat) {
    && i < |pinned| && i < |candidate| && pinned[i] < candidate[i]
    && forall k :: 0 <= k < i ==> pinned[k] == candidate[k]
  }

  lemma GreaterShift(a: Key, b: Key, i: nat)
    requires a != [] && b != [] && a[0] == b[0]
    ensures GreaterAt(a, b, i + 1) <==> GreaterAt(a[1..], b[1..], i)
  {
    if GreaterAt(a[1..], b[1..], i) {
      forall k | 0 <= k < i + 1 ensures a[k] == b[k] {
        if k > 0 { assert a[1..][k - 1] == b[1..][k - 1]; }
      }
    }
  }

  /** Tuples are compared by the first component that differs, and a beginning is smaller. */
  lemma {:induction false} OrderMeans(a: Key, b: Key)
    ensures Lt(a, b) <==> (a <= b && a != b) || exists i: nat :: GreaterAt(a, b, i)
    decreases |a|
  {
    if a != [] && b != [] {
      OrderMeans(a[1..], b[1..]);
      assert a == [a[0]] + a[1..] && b == [b[0]] + b[1..];
      if a[0] == b[0] {
        if i: nat :| GreaterAt(a[1..], b[1..], i) { GreaterShift(a, b, i); }
        if i: nat :| GreaterAt(a, b, i) { GreaterShift(a, b, i - 1); }
      } else if a[0] < b[0] {
        assert GreaterAt(a, b, 0);
      }
    }
  }

  lemma EqualBefore(pinned: Key, candidate: Key, i: nat, k: nat)
    requires GreaterAt(pinned, candidate, i)
    ensures k < i ==> pinned[k] == candidate[k]
  {
  }

  lemma GreaterOnce(pinned: Key, candidate: Key, i: nat, j: nat)
    requires GreaterAt(pinned, candidate, i) && GreaterAt(pinned, candidate, j)
    ensures i == j
  {
    EqualBefore(pinned, candidate, i, j);
    EqualBefore(pinned, candidate, j, i);
  }

  /** The severity is the component at which the candidate is greater: the first is a major
      upgrade, the second a minor one, any later one a patch; components the pin does not have
      do not count. */
  lemma StatusMeans(pinned: Key, candidate: Key)
    ensures Classify(pinned, candidate) == Major <==> GreaterAt(pinned, candidate, 0)
    ensures Classify(pinned, candidate) == Minor <==> GreaterAt(pinned, candidate, 1)
    ensures Classify(pinned, candidate) == Patch <==> exists i: nat :: i >= 2 && GreaterAt(pinned, candidate, i)
    ensures Newer(pinned, candidate) <==> exists i: nat :: GreaterAt(pinned, candidate, i)
  {
    var head := Take(candidate, |pinned|);
    OrderMeans(pinned, head);
    assert forall i: nat :: GreaterAt(pinned, head, i) <==> GreaterAt(pinned, candidate, i);
    if Newer(pinned, candidate) {
      var i := FirstDifference(pinned, head);
      assert GreaterAt(pinned, head, i);
      forall j: nat | GreaterAt(pinned, candidate, j) ensures j == i { GreaterOnce(pinned, candidate, i, j); }
    }
  }

  /** What is reported beside the status. The newest tag is the one with the greatest number
      and, among equals, the greatest name. */
  ghost predicate Reports(pinned: Key, tags: seq<string>, f: Finding)
    requires f.Finding?
  {
    && f.latest in tags && f.status == Classify(pinned, VersionKey(f.latest))
    && (forall t :: t in tags ==>
          !Lt(VersionKey(f.latest), VersionKey(t))
          && (VersionKey(t) == VersionKey(f.latest) ==> !Lt(Codes(f.latest), Codes(t))))
    && (f.status == Minor || f.status == Patch ==> f.note == NoNote)
    && (f.status == Current ==>
          f.note == if exists i: nat :: GreaterAt(VersionKey(f.latest), pinned, i) then Ahead
                    else if VersionKey(f.latest) < pinned then Ahead
                    else if |VersionKey(f.latest)| > |pinned| then Floating
                    else NoNote)
  }

  lemma JudgeReports(pinned: Key, s: seq<Candidate>)
    requires pinned != [] && Judge(pinned, s).Finding?
    ensures s != [] && Judge(pinned, s).latest == s[|s| - 1].tag
    ensures var key := s[|s| - 1].key;
            && Judge(pinned, s).status == Classify(pinned, key)
            && (Judge(pinned, s).status == Minor || Judge(pinned, s).status == Patch ==>
                  Judge(pinned, s).note == NoNote)
            && (Judge(pinned, s).status == Current ==>
                  Judge(pinned, s).note == if Lt(Take(key, |pinned|), pinned) then Ahead
                                           else if |key| > |pinned| then Floating else NoNote)
  {
    hide Classify, SameMajor, Lt;
  }

  lemma LastIsGreatestName(s: seq<Candidate>, tags: seq<string>, t: string)
    requires Ranks(s, tags) && s != [] && t in tags && VersionKey(t) == s[|s| - 1].key
    ensures !Lt(Codes(s[|s| - 1].tag), Codes(t))
  {
    hide VersionKey, Lt, Codes;
    assert Candidate(VersionKey(t), t) in s;
    var i :| 0 <= i < |s| && s[i] == Candidate(VersionKey(t), t);
    LtTotal(Codes(t), Codes(t));
    if i < |s| - 1 { assert !Below(s[|s| - 1], s[i]); }
  }

  lemma AheadMeans(pinned: Key, key: Key)
    requires pinned != []
    ensures Lt(Take(key, |pinned|), pinned) <==> key < pinned || exists i: nat :: GreaterAt(key, pinned, i)
  {
    var head := Take(key, |pinned|);
    OrderMeans(head, pinned);
    assert forall i: nat :: GreaterAt(head, pinned, i) <==> GreaterAt(key, pinned, i);
  }

  /** A finding names the newest tag and its severity, and says whether the pin is ahead of it
      or covers it as a floating tag. */
  lemma FindingMeans(pinned: Key, tags: seq<string>)
    requires pinned != [] && Evaluate(pinned, tags).Finding?
    ensures Reports(pinned, tags, Evaluate(pinned, tags))
  {
    var s := Sort(Candidates(tags));
    var f := Evaluate(pinned, tags);
    SortRanks(tags);
    hide Judge, Sort, Candidates, VersionKey, Lt, Take, Codes, Classify, Ranks, GreaterAt;
    JudgeReports(pinned, s);
    LastIsGreatest(s, tags, "");
    AheadMeans(pinned, VersionKey(f.latest));
    forall t | t in tags
      ensures !Lt(VersionKey(f.latest), VersionKey(t))
      ensures VersionKey(t) == VersionKey(f.latest) ==> !Lt(Codes(f.latest), Codes(t))
    {
      LastIsGreatest(s, tags, t);
      if VersionKey(t) == VersionKey(f.latest) { LastIsGreatestName(s, tags, t); }
    }
  }

  lemma ReadsThirty()
    ensures AllDigits("30") && Value("30") == 30 && AllDigits("1") && Value("1") == 1
  {
    assert "1"[..0] == "" && "30"[..1] == "3" && "3"[..0] == "";
    assert Value("3") == 3;
  }

  lemma ReadsOneThirty()
    ensures VersionKey("1.30") == [1, 30]
  {
    assert "1" + ".30" == "1.30" && "." + "30" == ".30" && "30" + "" == "30";
    hide VersionKey, Value;
    ReadsThirty();
    RunCountsWhole("1", ".30");
    SkipsOtherText(".", "30");
    RunCountsWhole("30", "");
    NoNumber("");
  }

  lemma ReadsSuffix()
    ensures VersionKey("3s-1.30") == [1, 30]
  {
    assert "3" + "s-1.30" == "3s-1.30" && "s-" + "1.30" == "s-1.30";
    hide VersionKey, Value;
    RunCountsWhole("3", "s-1.30");
    SkipsOtherText("s-", "1.30");
    ReadsOneThirty();
  }

  /** The examples of the documentation. */
  lemma NumbersInWords()
    ensures VersionKey("k3s-1.30") == [1, 30]
  {
    assert "k" + "3s-1.30" == "k3s-1.30";
    hide VersionKey;
    SkipsOtherText("k", "3s-1.30");
    ReadsSuffix();
  }

  lemma DocumentedStatus()
    ensures Classify([5, 1], [5, 1, 3]) == Current && Classify([1, 2, 3], [1, 3, 0]) == Minor
  {
    StatusMeans([5, 1], [5, 1, 3]);
    StatusMeans([1, 2, 3], [1, 3, 0]);
    hide Classify;
    assert GreaterAt([1, 2, 3], [1, 3, 0], 1);
  }
}

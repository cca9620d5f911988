/** The version verdict of dgxarley/k3shelperstuff/pin_drift.py: reading a version number out
    of a tag, comparing it at the precision of the pin, and judging a pin by its upstream's
    tags. Digits and letters are ASCII. */
module VersionOrder {

  type Key = seq<nat>

  // ---- version_key ---------------------------------------------------------------------

  predicate IsDigit(c: char) { '0' <= c <= '9' }
  predicate IsLetter(c: char) { 'A' <= c <= 'Z' || 'a' <= c <= 'z' }

  ghost predicate AllDigits(s: string) { forall i :: 0 <= i < |s| ==> IsDigit(s[i]) }
  ghost predicate NoDigits(s: string) { forall i :: 0 <= i < |s| ==> !IsDigit(s[i]) }

  function Value(s: string): nat
    requires AllDigits(s)
  {
    if s == "" then 0 else Value(s[..|s| - 1]) * 10 + (s[|s| - 1] - '0') as nat
  }

  /** The length of the run of digits at the start. */
  function Run(s: string): (n: nat)
    ensures n <= |s| && AllDigits(s[..n]) && (n < |s| ==> !IsDigit(s[n]))
  {
    if s == "" || !IsDigit(s[0]) then 0
    else
      var n := 1 + Run(s[1..]);
      assert s[..n] == [s[0]] + s[1..][..n - 1];
      n
  }

  /** The lookahead `(?![A-Za-z\d])`. */
  predicate Ends(s: string, n: nat) {
    n < |s| ==> !IsLetter(s[n]) && !IsDigit(s[n])
  }

  /** `\d+(?![A-Za-z\d])` at the start of the text: the engine takes the whole run and gives
      digits back until the lookahead holds; 0 if it never does. */
  function Backtrack(s: string, n: nat): nat
    requires n <= Run(s)
  {
    if n == 0 || Ends(s, n) then n else Backtrack(s, n - 1)
  }

  /** `re.findall`: leftmost matches, one after the other. */
  function VersionKey(s: string): Key {
    if s == "" then []
    else
      var n := Backtrack(s, Run(s));
      if n > 0 then PrefixOfRun(s, n); [Value(s[..n])] + VersionKey(s[n..]) else VersionKey(s[1..])
  }

  lemma {:induction false} BacktrackBound(s: string, n: nat)
    requires n <= Run(s)
    ensures Backtrack(s, n) <= n
    decreases n
  {
    if n > 0 && !Ends(s, n) { BacktrackBound(s, n - 1); }
  }

  lemma PrefixOfRun(s: string, n: nat)
    requires n == Backtrack(s, Run(s))
    ensures n <= Run(s) && AllDigits(s[..n])
  {
    BacktrackBound(s, Run(s));
    assert s[..n] == s[..Run(s)][..n];
  }

  /** Giving digits back never helps: the digit given back is what the lookahead forbids. */
  lemma {:induction false} BacktrackIsAllOrNothing(s: string, n: nat)
    requires n <= Run(s)
    ensures n < Run(s) ==> Backtrack(s, n) == 0
    ensures n == Run(s) ==> Backtrack(s, n) == if Ends(s, n) then n else 0
    decreases n
  {
    if n > 0 {
      BacktrackIsAllOrNothing(s, n - 1);
      assert n < Run(s) ==> IsDigit(s[..Run(s)][n]);
    }
  }

  /** A run of digits counts whole unless it runs into a letter; then none of it counts. */
  lemma {:induction false} RunCountsWhole(d: string, rest: string)
    requires d != "" && AllDigits(d) && (rest != "" ==> !IsDigit(rest[0]))
    ensures VersionKey(d + rest) == (if rest != "" && IsLetter(rest[0]) then [] else [Value(d)]) + VersionKey(rest)
    decreases |d|
  {
    var s := d + rest;
    RunOf(d, rest);
    BacktrackIsAllOrNothing(s, Run(s));
    if rest != "" && IsLetter(rest[0]) {
      assert s[1..] == d[1..] + rest;
      if |d| > 1 { RunCountsWhole(d[1..], rest); }
    } else {
      assert s[..|d|] == d && s[|d|..] == rest;
    }
  }

  lemma {:induction false} RunOf(d: string, rest: string)
    requires AllDigits(d) && (rest != "" ==> !IsDigit(rest[0]))
    ensures Run(d + rest) == |d|
  {
    if d == "" {
      assert d + rest == rest;
    } else {
      assert (d + rest)[1..] == d[1..] + rest;
      RunOf(d[1..], rest);
    }
  }

  lemma {:induction false} SkipsOtherText(p: string, s: string)
    requires NoDigits(p)
    ensures VersionKey(p + s) == VersionKey(s)
  {
    if p == "" {
      assert p + s == s;
    } else {
      assert (p + s)[1..] == p[1..] + s;
      SkipsOtherText(p[1..], s);
    }
  }

  // ---- dotted versions -----------------------------------------------------------------

  function Digit(n: nat): (c: char)
    requires n < 10
    ensures IsDigit(c)
  {
    '0' + n as char
  }

  function Decimal(n: nat): string {
    if n < 10 then [Digit(n)] else Decimal(n / 10) + [Digit(n % 10)]
  }

  function Dotted(key: Key): string {
    if key == [] then "" else if |key| == 1 then Decimal(key[0]) else Decimal(key[0]) + "." + Dotted(key[1..])
  }

  lemma {:induction false} DecimalValue(n: nat)
    ensures Decimal(n) != "" && AllDigits(Decimal(n)) && Value(Decimal(n)) == n
  {
    if n >= 10 {
      DecimalValue(n / 10);
      assert Decimal(n)[..|Decimal(n)| - 1] == Decimal(n / 10);
    } else {
      assert [Digit(n)][..0] == "";
    }
  }

  /** Reading inverts printing, whatever digit-free text stands around the number: a "v" or a
      name before it, a flavour such as "-thick" after it. */
  lemma {:induction false} ReadingInvertsPrinting(prefix: string, key: Key, suffix: string)
    requires NoDigits(prefix) && NoDigits(suffix) && (suffix != "" ==> !IsLetter(suffix[0]))
    ensures VersionKey(prefix + Dotted(key) + suffix) == key
  {
    hide VersionKey, Dotted;
    ReadsDotted(key, suffix);
    SkipsOtherText(prefix, Dotted(key) + suffix);
    assert prefix + Dotted(key) + suffix == prefix + (Dotted(key) + suffix);
  }

  lemma {:induction false} ReadsDotted(key: Key, suffix: string)
    requires NoDigits(suffix) && (suffix != "" ==> !IsLetter(suffix[0]))
    ensures VersionKey(Dotted(key) + suffix) == key
  {
    hide VersionKey, Decimal;
    NoNumber(suffix);
    if key == [] {
      assert Dotted(key) + suffix == suffix;
    } else if |key| == 1 {
      ReadsNumber(key[0], suffix);
    } else {
      var rest := Dotted(key[1..]) + suffix;
      ReadsDotted(key[1..], suffix);
      ReadsOneMore(key[0], rest);
      assert Dotted(key) + suffix == Decimal(key[0]) + "." + rest;
    }
  }

  lemma NoNumber(s: string)
    requires NoDigits(s)
    ensures VersionKey(s) == []
  {
    assert s + "" == s;
    SkipsOtherText(s, "");
  }

  lemma ReadsOneMore(n: nat, rest: string)
    ensures VersionKey(Decimal(n) + "." + rest) == [n] + VersionKey(rest)
  {
    hide VersionKey, Decimal;
    ReadsNumber(n, "." + rest);
    SkipsOtherText(".", rest);
    assert Decimal(n) + "." + rest == Decimal(n) + ("." + rest);
  }

  lemma ReadsNumber(n: nat, rest: string)
    requires rest != "" ==> !IsDigit(rest[0]) && !IsLetter(rest[0])
    ensures VersionKey(Decimal(n) + rest) == [n] + VersionKey(rest)
  {
    DecimalValue(n);
    RunCountsWhole(Decimal(n), rest);
  }

  /** `removeprefix("v")` */
  function Bare(s: string): string {
    if s != "" && s[0] == 'v' then s[1..] else s
  }

  predicate SameVersion(running: string, pinned: string) {
    Bare(running) == Bare(pinned) || (VersionKey(pinned) != [] && VersionKey(running) == VersionKey(pinned))
  }

  /** A running image of another flavour has the pinned version if and only if the numbers
      are equal. */
  lemma FlavourIsIgnored(running: Key, flavour: string, pinned: Key)
    requires pinned != [] && flavour != "" && NoDigits(flavour) && !IsLetter(flavour[0])
    ensures SameVersion("v" + Dotted(running) + flavour, "v" + Dotted(pinned)) <==> running == pinned
  {
    hide VersionKey, Dotted;
    ReadingInvertsPrinting("v", running, flavour);
    ReadingInvertsPrinting("v", pinned, "");
    ReadingInvertsPrinting("", running, flavour);
    ReadingInvertsPrinting("", pinned, "");
    assert "v" + Dotted(pinned) + "" == "v" + Dotted(pinned);
    assert "" + Dotted(pinned) + "" == Dotted(pinned) == Bare("v" + Dotted(pinned));
    assert "" + Dotted(running) + flavour == Dotted(running) + flavour == Bare("v" + Dotted(running) + flavour);
  }

  // ---- the order of tuples -------------------------------------------------------------

  /** Python's `<` on tuples of integers. */
  predicate Lt(a: Key, b: Key) {
    b != [] && (a == [] || a[0] < b[0] || (a[0] == b[0] && Lt(a[1..], b[1..])))
  }

  /** `s[:n]` */
  function Take(s: Key, n: nat): (r: Key)
    ensures |r| <= n
  {
    if n < |s| then s[..n] else s
  }

  lemma {:induction false} LtTotal(a: Key, b: Key)
    ensures Lt(a, b) ==> !Lt(b, a)
    ensures !Lt(a, b) && !Lt(b, a) <==> a == b
  {
    if a != [] && b != [] {
      LtTotal(a[1..], b[1..]);
      assert a == [a[0]] + a[1..] && b == [b[0]] + b[1..];
    }
  }

  lemma {:induction false} NotLtTransitive(a: Key, b: Key, c: Key)
    requires !Lt(b, a) && !Lt(c, b)
    ensures !Lt(c, a)
  {
    if a != [] && b != [] && c != [] {
      if a[0] == b[0] == c[0] { NotLtTransitive(a[1..], b[1..], c[1..]); }
    }
  }

  lemma {:induction false} TakeMonotone(a: Key, b: Key, n: nat)
    requires !Lt(b, a)
    ensures !Lt(Take(b, n), Take(a, n))
  {
    if n > 0 && a != [] && b != [] {
      TakeStep(a, n);
      TakeStep(b, n);
      hide Take;
      if a[0] == b[0] { TakeMonotone(a[1..], b[1..], n - 1); }
    }
  }

  lemma TakeStep(a: Key, n: nat)
    requires n > 0 && a != []
    ensures Take(a, n) != [] && Take(a, n)[0] == a[0] && Take(a, n)[1..] == Take(a[1..], n - 1)
  {
  }

  // ---- classify ------------------------------------------------------------------------

  datatype Status = Current | Patch | Minor | Major
  {
    function Rank(): nat {
      match this
      case Current => 0
      case Patch => 1
      case Minor => 2
      case Major => 3
    }
  }

  /** The first index at which the two differ. There is one: a key that is greater than the
      pin without being longer differs from it. */
  function FirstDifference(pinned: Key, head: Key): (i: nat)
    requires Lt(pinned, head) && |head| <= |pinned|
    ensures i < |head| && pinned[..i] == head[..i] && pinned[i] < head[i]
  {
    if pinned[0] != head[0] then 0
    else
      var i := 1 + FirstDifference(pinned[1..], head[1..]);
      assert pinned[..i] == [pinned[0]] + pinned[1..][..i - 1] && head[..i] == [head[0]] + head[1..][..i - 1];
      i
  }

  /** The candidate is newer at the pin's precision. */
  predicate Newer(pinned: Key, candidate: Key) {
    Lt(pinned, Take(candidate, |pinned|))
  }

  function Classify(pinned: Key, candidate: Key): Status {
    if !Newer(pinned, candidate) then Current
    else
      var i := FirstDifference(pinned, Take(candidate, |pinned|));
      if i == 0 then Major else if i == 1 then Minor else Patch
  }

  lemma {:induction false} DifferenceMonotone(p: Key, h: Key, k: Key)
    requires Lt(p, h) && !Lt(k, h) && |h| <= |p| && |k| <= |p|
    ensures Lt(p, k) && FirstDifference(p, k) <= FirstDifference(p, h)
  {
    if k != [] && p[0] == h[0] == k[0] { DifferenceMonotone(p[1..], h[1..], k[1..]); }
  }

  /** A greater candidate is never judged milder. */
  lemma ClassifyMonotone(pinned: Key, a: Key, b: Key)
    requires !Lt(b, a)
    ensures Classify(pinned, a).Rank() <= Classify(pinned, b).Rank()
  {
    TakeMonotone(a, b, |pinned|);
    if Newer(pinned, a) { DifferenceMonotone(pinned, Take(a, |pinned|), Take(b, |pinned|)); }
  }

  // ---- evaluate ------------------------------------------------------------------------

  datatype Candidate = Candidate(key: Key, tag: string)

  function Codes(s: string): Key {
    seq(|s|, i requires 0 <= i < |s| => s[i] as nat)
  }

  predicate Below(x: Candidate, y: Candidate) {
    Lt(x.key, y.key) || (x.key == y.key && Lt(Codes(x.tag), Codes(y.tag)))
  }

  lemma NotBelowTransitive(x: Candidate, y: Candidate, z: Candidate)
    requires !Below(y, x) && !Below(z, y)
    ensures !Below(z, x)
  {
    LtTotal(x.key, y.key);
    LtTotal(y.key, z.key);
    LtTotal(x.key, z.key);
    NotLtTransitive(x.key, y.key, z.key);
    if x.key == z.key {
      NotLtTransitive(z.key, y.key, x.key);
      NotLtTransitive(Codes(x.tag), Codes(y.tag), Codes(z.tag));
    }
  }

  function Insert(x: Candidate, s: seq<Candidate>): seq<Candidate> {
    if s == [] || Below(x, s[0]) then [x] + s else [s[0]] + Insert(x, s[1..])
  }

  /** `sorted` */
  function Sort(s: seq<Candidate>): seq<Candidate> {
    if s == [] then [] else Insert(s[0], Sort(s[1..]))
  }

  ghost predicate Sorted(s: seq<Candidate>) {
    forall i, j :: 0 <= i < j < |s| ==> !Below(s[j], s[i])
  }

  lemma {:induction false} InsertSorted(x: Candidate, s: seq<Candidate>)
    requires Sorted(s)
    ensures Sorted(Insert(x, s)) && multiset(Insert(x, s)) == multiset{x} + multiset(s)
  {
    if s == [] {
    } else if Below(x, s[0]) {
      forall j | 0 <= j < |s| ensures !Below(s[j], x) {
        BelowAsymmetric(x, s[0]);
        if j > 0 { NotBelowTransitive(x, s[0], s[j]); }
      }
    } else {
      InsertSorted(x, s[1..]);
      var r := Insert(x, s[1..]);
      assert s == [s[0]] + s[1..];
      forall j | 0 <= j < |r| ensures !Below(r[j], s[0]) {
        assert r[j] in multiset(r);
        if r[j] != x {
          assert r[j] in multiset(s[1..]);
          var k :| 0 <= k < |s[1..]| && s[1..][k] == r[j];
          assert s[k + 1] == r[j];
        }
      }
    }
  }

  lemma BelowAsymmetric(x: Candidate, y: Candidate)
    ensures Below(x, y) ==> !Below(y, x)
  {
    LtTotal(x.key, y.key);
    LtTotal(Codes(x.tag), Codes(y.tag));
  }

  lemma {:induction false} SortSorted(s: seq<Candidate>)
    ensures Sorted(Sort(s)) && multiset(Sort(s)) == multiset(s)
  {
    if s != [] {
      SortSorted(s[1..]);
      InsertSorted(s[0], Sort(s[1..]));
      assert s == [s[0]] + s[1..];
    }
  }

  datatype Note = NoNote | Ahead | Floating | WithinMajor(tag: string)

  /** `Unclear` is the finding without matching tags; `IndexError` is raised when a matching
      tag without a number meets a major upgrade. */
  datatype Finding = Unclear | IndexError | Finding(latest: string, status: Status, note: Note)

  function SameMajor(s: seq<Candidate>, major: nat): seq<Candidate> {
    if s == [] then []
    else (if s[0].key != [] && s[0].key[0] == major then [s[0]] else []) + SameMajor(s[1..], major)
  }

  /** The verdict on a pin with a version number, given the upstream tags that match. */
  function Evaluate(pinned: Key, tags: seq<string>): Finding
    requires pinned != []
  {
    Judge(pinned, Sort(Candidates(tags)))
  }

  function Judge(pinned: Key, candidates: seq<Candidate>): Finding
    requires pinned != []
  {
    if candidates == [] then Unclear
    else
      var latest := candidates[|candidates| - 1];
      var status := Classify(pinned, latest.key);
      if status == Current then
        Finding(latest.tag, status,
                if Lt(Take(latest.key, |pinned|), pinned) then Ahead
                else if |pinned| < |latest.key| then Floating else NoNote)
      else if status == Major then
        if exists x :: x in candidates && x.key == [] then IndexError
        else
          var same := SameMajor(candidates, pinned[0]);
          Finding(latest.tag, status,
                  if same != [] && Classify(pinned, same[|same| - 1].key) != Current
                  then WithinMajor(same[|same| - 1].tag)
                  else NoNote)
      else Finding(latest.tag, status, NoNote)
  }

  function Candidates(tags: seq<string>): seq<Candidate> {
    seq(|tags|, i requires 0 <= i < |tags| => Candidate(VersionKey(tags[i]), tags[i]))
  }

  // ---- what the verdict means ----------------------------------------------------------

  /** `s` lists the tags with their keys in ascending order. */
  ghost predicate Ranks(s: seq<Candidate>, tags: seq<string>) {
    Sorted(s) && forall c :: c in s <==> c.tag in tags && c.key == VersionKey(c.tag)
  }

  lemma SortRanks(tags: seq<string>)
    ensures Ranks(Sort(Candidates(tags)), tags)
  {
    SortSorted(Candidates(tags));
    forall c ensures c in Sort(Candidates(tags)) <==> c.tag in tags && c.key == VersionKey(c.tag) {
      assert c in Sort(Candidates(tags)) <==> c in multiset(Candidates(tags));
      if c.tag in tags && c.key == VersionKey(c.tag) {
        var i :| 0 <= i < |tags| && tags[i] == c.tag;
        assert Candidates(tags)[i] == c;
      }
    }
  }

  lemma NotBelowLast(s: seq<Candidate>, c: Candidate)
    requires Sorted(s) && c in s
    ensures !Lt(s[|s| - 1].key, c.key)
  {
    var i :| 0 <= i < |s| && s[i] == c;
    LtTotal(s[|s| - 1].key, c.key);
  }

  /** The last of the ranked tags is a tag, and none is greater. */
  lemma LastIsGreatest(s: seq<Candidate>, tags: seq<string>, t: string)
    requires Ranks(s, tags) && s != []
    ensures s[|s| - 1].tag in tags && s[|s| - 1].key == VersionKey(s[|s| - 1].tag)
    ensures t in tags ==> !Lt(s[|s| - 1].key, VersionKey(t))
  {
    hide VersionKey, Sorted;
    assert s[|s| - 1] in s;
    if t in tags {
      assert Candidate(VersionKey(t), t) in s;
      NotBelowLast(s, Candidate(VersionKey(t), t));
    }
  }

  lemma RanksEmpty(s: seq<Candidate>, tags: seq<string>)
    requires Ranks(s, tags)
    ensures s == [] <==> tags == []
  {
    hide VersionKey, Sorted;
    if tags != [] { assert Candidate(VersionKey(tags[0]), tags[0]) in s; }
    if s != [] { assert s[0].tag in tags; }
  }

  /** No tag is judged more severely. */
  lemma LastIsSeverest(pinned: Key, s: seq<Candidate>, tags: seq<string>, t: string)
    requires Ranks(s, tags) && s != [] && t in tags
    ensures Classify(pinned, VersionKey(t)).Rank() <= Classify(pinned, s[|s| - 1].key).Rank()
  {
    LastIsGreatest(s, tags, t);
    ClassifyMonotone(pinned, VersionKey(t), s[|s| - 1].key);
  }

  /** The verdict is the severest of all candidates', and it is Current if and only if no
      candidate is newer at the precision of the pin. */
  lemma VerdictIsTheSeverest(pinned: Key, tags: seq<string>)
    requires pinned != [] && Evaluate(pinned, tags).Finding?
    ensures Evaluate(pinned, tags).latest in tags
    ensures Evaluate(pinned, tags).status == Classify(pinned, VersionKey(Evaluate(pinned, tags).latest))
    ensures forall t :: t in tags ==> Classify(pinned, VersionKey(t)).Rank() <= Evaluate(pinned, tags).status.Rank()
    ensures Evaluate(pinned, tags).status == Current <==> forall t :: t in tags ==> !Newer(pinned, VersionKey(t))
  {
    SortRanks(tags);
    hide Sort, Candidates, VersionKey, Classify, Newer, Ranks, Judge;
    JudgesSeverest(pinned, Sort(Candidates(tags)), tags);
  }

  lemma JudgeReportsLast(pinned: Key, s: seq<Candidate>)
    requires pinned != [] && Judge(pinned, s).Finding?
    ensures s != [] && Judge(pinned, s).latest == s[|s| - 1].tag
    ensures Judge(pinned, s).status == Classify(pinned, s[|s| - 1].key)
  {
    hide Classify, SameMajor;
  }

  lemma JudgesSeverest(pinned: Key, s: seq<Candidate>, tags: seq<string>)
    requires pinned != [] && Ranks(s, tags) && Judge(pinned, s).Finding?
    ensures Judge(pinned, s).latest in tags
    ensures Judge(pinned, s).status == Classify(pinned, VersionKey(Judge(pinned, s).latest))
    ensures forall t :: t in tags ==> Classify(pinned, VersionKey(t)).Rank() <= Judge(pinned, s).status.Rank()
    ensures Judge(pinned, s).status == Current <==> forall t :: t in tags ==> !Newer(pinned, VersionKey(t))
  {
    hide Judge, Ranks, VersionKey, Newer, Classify;
    JudgeReportsLast(pinned, s);
    LastIsGreatest(s, tags, "");
    forall t | t in tags
      ensures Classify(pinned, VersionKey(t)).Rank() <= Judge(pinned, s).status.Rank()
      ensures Newer(pinned, VersionKey(t)) <==> Classify(pinned, VersionKey(t)) != Current
    {
      LastIsSeverest(pinned, s, tags, t);
      NewerIsJudged(pinned, VersionKey(t));
    }
  }

  lemma NewerIsJudged(pinned: Key, candidate: Key)
    ensures Newer(pinned, candidate) <==> Classify(pinned, candidate) != Current
  {
  }

  /** A tag without a number among the matching ones breaks the report of a major upgrade,
      and only that. */
  lemma KeylessTagBreaksMajorReports(pinned: Key, tags: seq<string>)
    requires pinned != []
    ensures Evaluate(pinned, tags).Unclear? <==> tags == []
    ensures Evaluate(pinned, tags).IndexError? <==>
            && (exists t :: t in tags && Classify(pinned, VersionKey(t)) == Major)
            && (exists t :: t in tags && VersionKey(t) == [])
  {
    SortRanks(tags);
    hide Sort, Candidates, VersionKey;
    JudgeFails(pinned, Sort(Candidates(tags)), tags);
  }

  lemma JudgeFails(pinned: Key, s: seq<Candidate>, tags: seq<string>)
    requires pinned != [] && Ranks(s, tags)
    ensures Judge(pinned, s).Unclear? <==> tags == []
    ensures Judge(pinned, s).IndexError? <==>
            && (exists t :: t in tags && Classify(pinned, VersionKey(t)) == Major)
            && (exists t :: t in tags && VersionKey(t) == [])
  {
    JudgeErrs(pinned, s);
    RanksEmpty(s, tags);
    hide Judge;
    if s != [] {
      LastIsGreatest(s, tags, "");
      KeylessRanked(s, tags);
      hide VersionKey, Classify, Ranks;
      forall t | t in tags ensures Classify(pinned, VersionKey(t)).Rank() <= Classify(pinned, s[|s| - 1].key).Rank() {
        LastIsSeverest(pinned, s, tags, t);
      }
    }
  }

  lemma JudgeErrs(pinned: Key, s: seq<Candidate>)
    requires pinned != []
    ensures Judge(pinned, s).Unclear? <==> s == []
    ensures Judge(pinned, s).IndexError? <==>
            s != [] && Classify(pinned, s[|s| - 1].key) == Major && exists x :: x in s && x.key == []
  {
    hide Classify, SameMajor;
  }

  lemma KeylessRanked(s: seq<Candidate>, tags: seq<string>)
    requires Ranks(s, tags)
    ensures (exists x :: x in s && x.key == []) <==> exists t :: t in tags && VersionKey(t) == []
  {
    hide VersionKey, Sorted;
    if t :| t in tags && VersionKey(t) == [] { assert Candidate([], t) in s; }
  }

  /** The pin is called ahead of upstream if and only if it is greater than every tag. */
  lemma AheadOfAll(pinned: Key, tags: seq<string>)
    requires pinned != [] && Evaluate(pinned, tags).Finding? && Evaluate(pinned, tags).status == Current
    ensures Evaluate(pinned, tags).note == Ahead <==>
            forall t :: t in tags ==> Lt(Take(VersionKey(t), |pinned|), pinned)
  {
    SortRanks(tags);
    hide Sort, Candidates, VersionKey, Lt, Take;
    JudgesAhead(pinned, Sort(Candidates(tags)), tags);
  }

  lemma JudgesAhead(pinned: Key, s: seq<Candidate>, tags: seq<string>)
    requires pinned != [] && Ranks(s, tags) && Judge(pinned, s).Finding? && Judge(pinned, s).status == Current
    ensures Judge(pinned, s).note == Ahead <==> forall t :: t in tags ==> Lt(Take(VersionKey(t), |pinned|), pinned)
  {
    LastIsGreatest(s, tags, "");
    hide VersionKey, Classify, Lt, Ranks, Take;
    var key := s[|s| - 1].key;
    if Lt(Take(key, |pinned|), pinned) {
      forall t | t in tags ensures Lt(Take(VersionKey(t), |pinned|), pinned) {
        LastIsGreatest(s, tags, t);
        TakeMonotone(VersionKey(t), key, |pinned|);
        LtLtOrEqual(Take(VersionKey(t), |pinned|), Take(key, |pinned|), pinned);
      }
    }
  }

  lemma LtLtOrEqual(a: Key, b: Key, c: Key)
    requires !Lt(b, a) && Lt(b, c)
    ensures Lt(a, c)
  {
    if !Lt(a, c) { NotLtTransitive(c, a, b); }
  }

  ghost predicate InMajor(t: string, tags: seq<string>, major: nat) {
    t in tags && VersionKey(t) != [] && VersionKey(t)[0] == major
  }

  lemma {:induction false} SameMajorFilters(s: seq<Candidate>, major: nat, c: Candidate)
    ensures c in SameMajor(s, major) <==> c in s && c.key != [] && c.key[0] == major
  {
    if s != [] {
      SameMajorFilters(s[1..], major, c);
      assert s == [s[0]] + s[1..];
    }
  }

  lemma {:induction false} SameMajorSorted(s: seq<Candidate>, major: nat)
    requires Sorted(s)
    ensures Sorted(SameMajor(s, major))
  {
    if s != [] {
      SameMajorSorted(s[1..], major);
      var r := SameMajor(s[1..], major);
      forall j | 0 <= j < |r| ensures !Below(r[j], s[0]) {
        SameMajorFilters(s[1..], major, r[j]);
        var k :| 0 <= k < |s[1..]| && s[1..][k] == r[j];
        assert s[k + 1] == r[j];
      }
      hide Below;
    }
  }

  /** The newest tag within a major: there is one if and only if the filtered list is not
      empty, and then its last entry is it. */
  lemma LastInMajor(s: seq<Candidate>, tags: seq<string>, major: nat, t: string)
    requires Ranks(s, tags)
    ensures var same := SameMajor(s, major);
            && (same != [] ==>
                  InMajor(same[|same| - 1].tag, tags, major)
                  && same[|same| - 1].key == VersionKey(same[|same| - 1].tag))
            && (InMajor(t, tags, major) ==> same != [] && !Lt(same[|same| - 1].key, VersionKey(t)))
  {
    var same := SameMajor(s, major);
    SameMajorSorted(s, major);
    hide VersionKey, SameMajor, Sorted;
    if same != [] {
      SameMajorFilters(s, major, same[|same| - 1]);
    }
    if InMajor(t, tags, major) {
      SameMajorFilters(s, major, Candidate(VersionKey(t), t));
      NotBelowLast(same, Candidate(VersionKey(t), t));
    }
  }

  /** On a major upgrade the note names the greatest tag of the pinned major, if and only if
      some tag of that major is newer than the pin. */
  lemma WithinMajorIsTheGreatest(pinned: Key, tags: seq<string>)
    requires pinned != [] && Evaluate(pinned, tags).Finding? && Evaluate(pinned, tags).status == Major
    ensures NotesNewestInMajor(pinned, tags, Evaluate(pinned, tags).note)
  {
    SortRanks(tags);
    hide Sort, Candidates, VersionKey, NotesNewestInMajor;
    JudgesWithinMajor(pinned, Sort(Candidates(tags)), tags);
  }

  ghost predicate NotesNewestInMajor(pinned: Key, tags: seq<string>, note: Note)
    requires pinned != []
  {
    && (note.WithinMajor? <==> exists t :: InMajor(t, tags, pinned[0]) && Newer(pinned, VersionKey(t)))
    && (note.WithinMajor? ==>
          && InMajor(note.tag, tags, pinned[0]) && Newer(pinned, VersionKey(note.tag))
          && forall t :: InMajor(t, tags, pinned[0]) ==> !Lt(VersionKey(note.tag), VersionKey(t)))
  }

  lemma JudgesWithinMajor(pinned: Key, s: seq<Candidate>, tags: seq<string>)
    requires pinned != [] && Ranks(s, tags) && Judge(pinned, s).Finding? && Judge(pinned, s).status == Major
    ensures NotesNewestInMajor(pinned, tags, Judge(pinned, s).note)
  {
    hide *;
    NoteOfMajor(pinned, s);
    NoteIsNewest(pinned, s, tags, Judge(pinned, s).note);
  }

  function MajorNote(pinned: Key, same: seq<Candidate>): Note {
    if same != [] && Newer(pinned, same[|same| - 1].key) then WithinMajor(same[|same| - 1].tag) else NoNote
  }

  lemma NoteOfMajor(pinned: Key, s: seq<Candidate>)
    requires pinned != [] && Judge(pinned, s).Finding? && Judge(pinned, s).status == Major
    ensures Judge(pinned, s).note == MajorNote(pinned, SameMajor(s, pinned[0]))
  {
    hide SameMajor, Newer;
  }

  lemma NoteIsNewest(pinned: Key, s: seq<Candidate>, tags: seq<string>, note: Note)
    requires pinned != [] && Ranks(s, tags) && note == MajorNote(pinned, SameMajor(s, pinned[0]))
    ensures NotesNewestInMajor(pinned, tags, note)
  {
    var same := SameMajor(s, pinned[0]);
    hide VersionKey, SameMajor, InMajor, Ranks, Newer, Lt;
    forall t | InMajor(t, tags, pinned[0]) ensures same != [] && AtMost(pinned, VersionKey(t), same[|same| - 1].key) {
      AtMostLast(pinned, s, tags, t);
    }
    if same != [] { LastInMajor(s, tags, pinned[0], same[|same| - 1].tag); }
  }

  /** `a` is not greater than `b`, so not newer than the pin either unless `b` is. */
  ghost predicate AtMost(pinned: Key, a: Key, b: Key) {
    !Lt(b, a) && (Newer(pinned, a) ==> Newer(pinned, b))
  }

  lemma AtMostLast(pinned: Key, s: seq<Candidate>, tags: seq<string>, t: string)
    requires pinned != [] && Ranks(s, tags) && InMajor(t, tags, pinned[0])
    ensures var same := SameMajor(s, pinned[0]); same != [] && AtMost(pinned, VersionKey(t), same[|same| - 1].key)
  {
    var same := SameMajor(s, pinned[0]);
    hide VersionKey, SameMajor, InMajor, Ranks, Newer, Lt;
    LastInMajor(s, tags, pinned[0], t);
    NewerMonotone(pinned, VersionKey(t), same[|same| - 1].key);
  }

  lemma NewerMonotone(pinned: Key, a: Key, b: Key)
    requires !Lt(b, a)
    ensures Newer(pinned, a) ==> Newer(pinned, b)
  {
    ClassifyMonotone(pinned, a, b);
  }
}

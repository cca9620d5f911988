/** Whole runs: mail comes in and polls happen in any order, and any command of any poll may
    fail. What is dispatched, how often, and what is left behind. */
module MailRuns {
  import opened MailServer
  import opened MailPoll
  import opened MailLifecycle

  // ---- one poll ------------------------------------------------------------------------

  /** The loop ends behind the first dispatch that raises. */
  lemma {:induction false} ReachedIsFirstRaise(n: nat, i: nat, w: World)
    requires i <= n
    ensures forall j :: i <= j < Reached(n, i, w) - 1 ==> !w.handle(j).raises
    ensures Reached(n, i, w) < n ==> i < Reached(n, i, w) && w.handle(Reached(n, i, w) - 1).raises
    decreases n - i
  {
    if i < n && !w.handle(i).raises { ReachedIsFirstRaise(n, i + 1, w); }
  }

  /** A poll dispatches, in order, the mails it fetched up to the first whose dispatch raises. */
  lemma PollInv(c: Config, s: State, w: World)
    requires Inv(c, s) && w.Lists()
    ensures Inv(c, Checked(c, s, w))
    ensures var (got, t) := (FetchedNew(c, s, w).got, Checked(c, s, w));
            && t.taken == s.taken + Msgs(got) && t.dispatched == s.dispatched + Msgs(got[..Reached(|got|, 0, w)])
            && t.arrived == s.arrived && (s.forgot ==> t.forgot) && AllWell(c, got)
  {
    hide Inv, FetchedNew, Dispatched, Msgs, AllWell;
    FetchInv(c, s, w);
    var r := FetchedNew(c, s, w);
    DispatchAllInv(c, r.state, r.got, 0, w);
    assert forall n :: 0 <= n <= |r.got| ==> r.got[0..n] == r.got[..n];
  }

  /** Everything that was fetched is dispatched exactly when no mail before the last one raises. */
  lemma AllDispatchedIff(c: Config, s: State, w: World)
    requires Inv(c, s) && w.Lists()
    ensures var got := FetchedNew(c, s, w).got;
            Checked(c, s, w).dispatched == s.dispatched + Msgs(got) <==>
            forall i :: 0 <= i < |got| - 1 ==> !w.handle(i).raises
  {
    hide Inv, FetchedNew, Checked;
    PollInv(c, s, w);
    var got := FetchedNew(c, s, w).got;
    ReachedIsFirstRaise(|got|, 0, w);
    var n := Reached(|got|, 0, w);
    if n < |got| {
      assert w.handle(n - 1).raises && 0 <= n - 1 < |got| - 1;
      assert |s.dispatched + Msgs(got[..n])| < |s.dispatched + Msgs(got)|;
    } else {
      assert got[..n] == got;
    }
  }

  // ---- one event -----------------------------------------------------------------------

  lemma DeliverKeepsLive(s: State, m: Msg, n: Msg)
    requires Wf(s.server) && Live(s.server, n) && m !in s.arrived
    ensures Live(Delivered(s, m).server, n)
  {
    var k :| k in s.server.copies && s.server.copies[k].msg == n && !s.server.copies[k].deleted;
    assert k in Delivered(s, m).server.copies && Delivered(s, m).server.copies[k] == s.server.copies[k];
  }

  lemma DeliverKeepsAll(c: Config, s: State, m: Msg)
    requires NothingLost(s.server, s.arrived) && WorkingFindable(c, s.server) && m !in s.arrived
    ensures NothingLost(Delivered(s, m).server, Delivered(s, m).arrived)
    ensures WorkingFindable(c, Delivered(s, m).server)
  {
    var r := Delivered(s, m).server;
    assert s.server.next in r.copies && r.copies[s.server.next].msg == m && !r.copies[s.server.next].deleted;
    assert Live(r, m);
    forall n | n in s.arrived ensures Live(r, n) { DeliverKeepsLive(s, m, n); }
    hide Live;
  }

  /** A new mail has one copy, which is open. */
  lemma DeliverOrderly(c: Config, s: State, m: Msg)
    requires NothingLost(s.server, s.arrived) && TakenArrived(s) && m !in s.arrived
    requires Orderly(s.server, Memory(c, s), s.taken)
    ensures Orderly(Delivered(s, m).server, Memory(c, s), s.taken)
  {
    hide Live;
    var r := Delivered(s, m).server;
    forall k | Open(r, Memory(c, s), k)
      ensures if k == s.server.next then r.copies[k].msg == m && m !in s.taken
              else Open(s.server, Memory(c, s), k) && r.copies[k] == s.server.copies[k] && r.copies[k].msg != m
    {}
    hide Open, Delivered, Memory;
  }

  lemma DeliverInv(c: Config, s: State, m: Msg)
    requires Inv(c, s)
    ensures Inv(c, Delivered(s, m))
  {
    if m !in s.arrived {
      DeliverKeepsAll(c, s, m);
      if Remembers(c, s) { DeliverOrderly(c, s, m); }
    }
    hide NothingLost, WorkingFindable, Orderly, Distinct;
  }

  /** What every event does to the record of a run. */
  ghost predicate Grows(s: State, t: State, got: seq<Msg>, n: nat) {
    && n <= |got| && t.taken == s.taken + got && t.dispatched == s.dispatched + got[..n]
    && s.arrived <= t.arrived && (s.forgot ==> t.forgot)
  }

  lemma MsgsCut(got: seq<Fetched>, n: nat)
    requires n <= |got|
    ensures Msgs(got[..n]) == Msgs(got)[..n]
  {
  }

  lemma StepGrows(c: Config, s: State, e: Event)
    requires Inv(c, s) && Legal([e])
    ensures Inv(c, Stepped(c, s, e)) && exists got, n :: Grows(s, Stepped(c, s, e), got, n)
  {
    assert [e][0] == e;
    match e
    case Deliver(m) =>
      DeliverInv(c, s, m);
      hide Inv;
      assert Grows(s, Stepped(c, s, e), [], 0);
    case Poll(w) =>
      hide Inv, Checked, Msgs, Reached;
      PollInv(c, s, w);
      var got := FetchedNew(c, s, w).got;
      MsgsCut(got, Reached(|got|, 0, w));
      assert |Msgs(got)| == |got| by { MsgsLength(got); }
      assert Grows(s, Stepped(c, s, e), Msgs(got), Reached(|got|, 0, w));
  }

  lemma MsgsLength(got: seq<Fetched>)
    ensures |Msgs(got)| == |got|
  {
  }

  // ---- runs ----------------------------------------------------------------------------

  lemma StartInv(c: Config)
    ensures Inv(c, Start())
  {
  }

  lemma LegalParts(events: seq<Event>)
    requires events != [] && Legal(events)
    ensures Legal(events[..|events| - 1]) && Legal([events[|events| - 1]])
  {
  }

  /** Every mail dispatched was taken, and no more often. */
  ghost predicate Balanced(s: State) {
    multiset(s.dispatched) <= multiset(s.taken)
  }

  lemma GrowsBalanced(s: State, t: State, got: seq<Msg>, n: nat)
    requires Grows(s, t, got, n) && Balanced(s)
    ensures Balanced(t)
  {
    assert got == got[..n] + got[n..];
  }

  lemma StepInv(c: Config, s: State, e: Event)
    requires Inv(c, s) && Balanced(s) && Legal([e])
    ensures Inv(c, Stepped(c, s, e)) && Balanced(Stepped(c, s, e))
    ensures s.arrived <= Stepped(c, s, e).arrived && (s.forgot ==> Stepped(c, s, e).forgot)
  {
    hide Inv, Balanced, Stepped;
    StepGrows(c, s, e);
    var got, n :| Grows(s, Stepped(c, s, e), got, n);
    GrowsBalanced(s, Stepped(c, s, e), got, n);
  }

  lemma {:induction false} RunInv(c: Config, s: State, events: seq<Event>)
    requires Inv(c, s) && Balanced(s) && Legal(events)
    ensures Inv(c, After(c, s, events)) && Balanced(After(c, s, events))
    ensures s.arrived <= After(c, s, events).arrived && (s.forgot ==> After(c, s, events).forgot)
    decreases |events|
  {
    hide Inv, Balanced, Stepped;
    if events != [] {
      LegalParts(events);
      var before := events[..|events| - 1];
      RunInv(c, s, before);
      StepInv(c, After(c, s, before), events[|events| - 1]);
    }
  }

  lemma DistinctMeansOnce(mails: seq<Msg>)
    ensures Distinct(mails) <==> forall m :: multiset(mails)[m] <= 1
    decreases |mails|
  {
    if mails != [] {
      var rest := mails[..|mails| - 1];
      var m := mails[|mails| - 1];
      assert mails == rest + [m];
      DistinctMeansOnce(rest);
      if Distinct(mails) {
        assert m !in rest;
      } else if m in rest {
        assert multiset(mails)[m] >= 2;
      } else {
        var x :| multiset(rest)[x] > 1;
        assert multiset(mails)[x] > 1;
      }
    }
  }

  /** In every run, whatever fails: no mail is lost, what is in Working can be found again, and
      no mail is dispatched twice while Done is not INBOX or no UID was forgotten, which takes
      more UIDs than the cap. */
  lemma RunIsSafe(c: Config, events: seq<Event>)
    requires Legal(events)
    ensures var s := After(c, Start(), events);
            && NothingLost(s.server, s.arrived) && WorkingFindable(c, s.server)
            && (forall m :: m in s.dispatched ==> m in s.taken && m in s.arrived)
            && (s.forgot ==> s.server.next > c.seenMax >= 2)
            && (c.done != INBOX || !s.forgot ==> Distinct(s.taken) && Distinct(s.dispatched))
  {
    StartInv(c);
    RunInv(c, Start(), events);
    var s := After(c, Start(), events);
    DistinctMeansOnce(s.taken);
    DistinctMeansOnce(s.dispatched);
    hide NothingLost, WorkingFindable, Distinct, Orderly;
    forall m | m in s.dispatched ensures m in s.taken { assert multiset(s.dispatched)[m] > 0; }
  }

  // ---- what is left behind -------------------------------------------------------------

  /** The copy is at its UID, and not flagged for deletion. */
  ghost predicate Stands(s: Server, k: Slot, copy: Copy) {
    k in s.copies && s.copies[k] == copy && !copy.deleted
  }

  lemma MoveStands(s: Server, from: Folder, slot: Slot, dst: Folder, o: MoveOutcomes, k: Slot, copy: Copy)
    requires Wf(s) && Stands(s, k, copy) && !(slot == k && Holds(s, from, slot))
    ensures Wf(MoveResult(s, from, slot, dst, o).0) && Stands(MoveResult(s, from, slot, dst, o).0, k, copy)
  {
    MoveKeepsPlace(s, from, slot, dst, o, k);
    MoveKeepsWf(s, from, slot, dst, o);
    hide MoveResult, Wf;
  }

  /** A visit touches no other copy that is not flagged for deletion. */
  lemma VisitStands(c: Config, s: State, slot: Slot, v: Visit, k: Slot, copy: Copy)
    requires Wf(s.server) && Stands(s.server, k, copy) && slot != k
    ensures Stands(Visited(c, s, slot, v).state.server, k, copy)
  {
    var g := Flagging(s, slot, v.flag).server;
    assert Wf(g) && Stands(g, k, copy);
    VisitServer(c, s, slot, v);
    hide Visited, MoveResult, Wf, Flagging, Stands;
    MoveStands(g, INBOX, slot, c.done, v.move, k, copy);
    MoveStands(g, INBOX, slot, c.working, v.move, k, copy);
  }

  lemma {:induction false} MoveAllStands(
    s: State, from: Folder, todo: seq<Slot>, dst: Folder, move: Slot -> MoveOutcomes, k: Slot, copy: Copy)
    requires Wf(s.server) && Stands(s.server, k, copy) && (from == copy.folder ==> k !in todo)
    ensures Wf(MovedAll(s, from, todo, dst, move).server)
    ensures Stands(MovedAll(s, from, todo, dst, move).server, k, copy)
    decreases |todo|
  {
    if todo != [] {
      assert !(todo[0] == k && Holds(s.server, from, k)) by { hide Wf; }
      hide Wf, Stands, MoveResult, Holds;
      MoveStands(s.server, from, todo[0], dst, move(todo[0]), k, copy);
      MoveAllStands(Moved(s, from, todo[0], dst, move(todo[0])), from, todo[1..], dst, move, k, copy);
    }
  }

  /** The search for this record's Message-ID does not find the mail. */
  ghost predicate Ignores(c: Config, f: Fetched, m: Msg) {
    !c.matches(c.idOf(m), f.messageId)
  }

  lemma DispatchStands(c: Config, s: State, f: Fetched, h: Handling, k: Slot, copy: Copy)
    requires Wf(s.server) && Stands(s.server, k, copy) && Enumerates(h.list) && Ignores(c, f, copy.msg)
    ensures Wf(Dispatched(c, s, f, h).server) && Stands(Dispatched(c, s, f, h).server, k, copy)
  {
    var t := s.(dispatched := s.dispatched + [f.msg]);
    var found := FoundUids(c, t.server, f.source, f.messageId);
    assert ListsOnce(found, h.list(found));
    assert f.source == copy.folder ==> k !in found;
    hide Wf, Stands, FoundUids;
    MoveAllStands(t, f.source, h.list(found), c.done, h.move, k, copy);
  }

  lemma {:induction false} DispatchAllStands(
    c: Config, s: State, got: seq<Fetched>, i: nat, w: World, k: Slot, copy: Copy)
    requires Wf(s.server) && Stands(s.server, k, copy) && w.Lists() && i <= |got|
    requires forall j :: i <= j < Reached(|got|, i, w) ==> Ignores(c, got[j], copy.msg)
    ensures Stands(DispatchedFrom(c, s, got, i, w).server, k, copy)
    decreases |got| - i
  {
    hide Wf, Stands, Dispatched, Enumerates, Ignores;
    if i < |got| {
      DispatchStands(c, s, got[i], w.handle(i), k, copy);
      if !w.handle(i).raises {
        DispatchAllStands(c, Dispatched(c, s, got[i], w.handle(i)), got, i + 1, w, k, copy);
      }
    }
  }

  lemma CheckedStands(c: Config, s: State, w: World, k: Slot, copy: Copy)
    requires var r := FetchedNew(c, s, w);
             && Wf(r.state.server) && w.Lists() && Stands(r.state.server, k, copy)
             && forall i :: 0 <= i < Reached(|r.got|, 0, w) ==> Ignores(c, r.got[i], copy.msg)
    ensures Stands(Checked(c, s, w).server, k, copy)
  {
    hide FetchedNew, Dispatched, Stands, Wf, Ignores, Enumerates;
    DispatchAllStands(c, FetchedNew(c, s, w).state, FetchedNew(c, s, w).got, 0, w, k, copy);
  }

  /** A copy that is seen and not flagged for deletion. */
  ghost predicate Rests(s: Server, k: Slot, m: Msg, folder: Folder) {
    Stands(s, k, Copy(m, folder, true, false))
  }

  lemma VisitRests(c: Config, s: State, p: Server, slot: Slot, v: Visit, k: Slot, m: Msg, folder: Folder)
    requires Wf(s.server) && Waiting(p, s.server, slot) && Rests(s.server, k, m, folder)
    ensures Rests(Visited(c, s, slot, v).state.server, k, m, folder)
  {
    assert slot != k;
    hide Waiting, Visited, Wf, Stands;
    VisitStands(c, s, slot, v, k, Copy(m, folder, true, false));
  }

  lemma {:induction false} VisitAllRests(
    c: Config, s: State, p: Server, todo: seq<Slot>, w: World, k: Slot, m: Msg, folder: Folder)
    requires Inv(c, s) && AllWaiting(p, s.server, todo) && Rests(s.server, k, m, folder)
    ensures Rests(VisitedAll(c, s, todo, w).state.server, k, m, folder)
    decreases |todo|
  {
    if todo != [] {
      var v := w.visit(todo[0]);
      CopiesArrived(c, s, INBOX, todo[0]);
      AllWait(c, s, p, todo, v);
      hide Inv, Visited, AllWaiting, Waiting, Wf, Rests;
      VisitInv(c, s, p, todo[0], v);
      VisitRests(c, s, p, todo[0], v, k, m, folder);
      var one := Visited(c, s, todo[0], v);
      if !one.failed { VisitAllRests(c, one.state, p, todo[1..], w, k, m, folder); }
    }
  }

  lemma FetchRests(c: Config, s: State, w: World, k: Slot, m: Msg, folder: Folder)
    requires Inv(c, s) && w.Lists() && Rests(s.server, k, m, folder)
    ensures Rests(FetchedNew(c, s, w).state.server, k, m, folder)
  {
    CopiesArrived(c, s, INBOX, 0);
    UnseenWait(s.server, w.list);
    hide Inv, UnseenUids, Visited, AllWaiting, Enumerates, Wf, Rests;
    if w.search.Ok? { VisitAllRests(c, s, s.server, w.list(UnseenUids(s.server)), w, k, m, folder); }
  }

  /** No other mail is taken for it. */
  ghost predicate Unmistaken(c: Config, arrived: set<Msg>, m: Msg) {
    forall x :: x in arrived && x != m ==> !c.matches(c.idOf(m), c.idOf(x))
  }

  /** It was fetched and not dispatched, and rests in a folder. */
  ghost predicate Stranded(s: State, k: Slot, m: Msg, folder: Folder) {
    m in s.taken && m !in s.dispatched && Rests(s.server, k, m, folder)
  }

  lemma NotFetchedAgain(c: Config, s: State, t: State, got: seq<Fetched>, n: nat, m: Msg)
    requires Distinct(t.taken) && TakenArrived(t) && AllWell(c, got) && n <= |got|
    requires t.taken == s.taken + Msgs(got) && t.dispatched == s.dispatched + Msgs(got[..n])
    requires m in s.taken && m !in s.dispatched && Unmistaken(c, t.arrived, m)
    ensures m in t.taken && m !in t.dispatched && forall j :: 0 <= j < |got| ==> Ignores(c, got[j], m)
  {
    var a :| 0 <= a < |s.taken| && s.taken[a] == m;
    assert t.taken[a] == m;
    forall j | 0 <= j < |got| ensures got[j].msg != m && Ignores(c, got[j], m) {
      assert t.taken[|s.taken| + j] == got[j].msg;
      assert WellFetched(c, got[j]);
    }
  }

  lemma PollStrands(c: Config, s: State, w: World, k: Slot, m: Msg, folder: Folder)
    requires Inv(c, s) && w.Lists() && Remembers(c, Checked(c, s, w))
    requires Stranded(s, k, m, folder) && Unmistaken(c, s.arrived, m)
    ensures Stranded(Checked(c, s, w), k, m, folder)
  {
    var r := FetchedNew(c, s, w);
    var t := Checked(c, s, w);
    PollInv(c, s, w);
    FetchInv(c, s, w);
    assert Wf(r.state.server) && Distinct(t.taken) && TakenArrived(t) by { hide Checked, FetchedNew; }
    hide Inv, Wf, Distinct, TakenArrived, Stands, FetchedNew, Checked, Ignores, Unmistaken;
    NotFetchedAgain(c, s, t, r.got, Reached(|r.got|, 0, w), m);
    FetchRests(c, s, w, k, m, folder);
    CheckedStands(c, s, w, k, Copy(m, folder, true, false));
  }

  lemma DeliverStrands(c: Config, s: State, n: Msg, k: Slot, m: Msg, folder: Folder)
    requires Inv(c, s) && Stranded(s, k, m, folder)
    ensures Stranded(Delivered(s, n), k, m, folder)
  {
  }

  lemma StepStrands(c: Config, s: State, e: Event, k: Slot, m: Msg, folder: Folder)
    requires Inv(c, s) && Legal([e]) && Remembers(c, Stepped(c, s, e))
    requires Stranded(s, k, m, folder) && Unmistaken(c, s.arrived, m)
    ensures Stranded(Stepped(c, s, e), k, m, folder)
  {
    assert [e][0] == e;
    hide Inv, Stranded, Unmistaken, Checked, Delivered;
    match e
    case Deliver(n) => DeliverStrands(c, s, n, k, m, folder);
    case Poll(w) => PollStrands(c, s, w, k, m, folder);
  }

  /** A mail that was fetched and not dispatched is never dispatched: in every later state of
      every run its copy is where it was. */
  lemma {:induction false} StaysStranded(c: Config, s: State, events: seq<Event>, k: Slot, m: Msg, folder: Folder)
    requires Inv(c, s) && Balanced(s) && Legal(events) && Stranded(s, k, m, folder)
    requires Remembers(c, After(c, s, events)) && Unmistaken(c, After(c, s, events).arrived, m)
    ensures Stranded(After(c, s, events), k, m, folder)
    decreases |events|
  {
    hide Inv, Balanced, Stranded, Stepped;
    if events != [] {
      LegalParts(events);
      var before := events[..|events| - 1];
      RunInv(c, s, before);
      var t := After(c, s, before);
      var e := events[|events| - 1];
      StepInv(c, t, e);
      StaysStranded(c, s, before, k, m, folder);
      StepStrands(c, t, e, k, m, folder);
    }
  }
}

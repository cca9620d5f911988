/** What an exception in one dispatch does to the rest of its batch. */
module MailStranded {
  import opened MailServer
  import opened MailPoll
  import opened MailLifecycle
  import opened MailRuns
  import opened MailDelivery
  import opened MailRepeats

  /** A mail that was fetched in this poll was not dispatched before, and is not now. */
  lemma NotDispatched(s: State, t: State, got: seq<Fetched>, n: nat, j: nat)
    requires Distinct(t.taken) && Balanced(s) && n <= j < |got|
    requires t.taken == s.taken + Msgs(got) && t.dispatched == s.dispatched + Msgs(got[..n])
    ensures got[j].msg in t.taken && got[j].msg !in t.dispatched
    ensures forall i :: 0 <= i < n ==> got[i].msg != got[j].msg
  {
    var m := got[j].msg;
    assert t.taken[|s.taken| + j] == m;
    assert forall i :: 0 <= i < n ==> t.taken[|s.taken| + i] == got[i].msg;
    assert forall a :: 0 <= a < |s.taken| ==> t.taken[a] == s.taken[a];
    assert multiset(s.taken)[m] == 0;
    assert multiset(s.dispatched)[m] == 0;
  }

  lemma HeldRests(s: Server, folder: Folder, m: Msg)
    requires Held(true, s, folder, m)
    ensures exists k :: Rests(s, k, m, folder)
  {
    var k :| Spared(true, s, k) && s.copies[k].folder == folder && s.copies[k].msg == m && s.copies[k].seen;
    assert Rests(s, k, m, folder);
  }

  lemma LocatedRests(p: Server, s: Server, got: seq<Fetched>, j: nat)
    requires Located(true, p, s, got) && j < |got| && Spared(true, p, got[j].uid)
    ensures exists k :: Rests(s, k, got[j].msg, got[j].source)
  {
    HeldRests(s, got[j].source, got[j].msg);
  }

  lemma Ignored(c: Config, s: State, got: seq<Fetched>, n: nat, m: Msg)
    requires n <= |got| && AllWell(c, got) && Unmistaken(c, s.arrived, m)
    requires forall i :: 0 <= i < n ==> got[i].msg in s.arrived && got[i].msg != m
    ensures forall i :: 0 <= i < n ==> Ignores(c, got[i], m)
  {
    forall i | 0 <= i < n ensures Ignores(c, got[i], m) { assert WellFetched(c, got[i]); }
  }

  lemma GotArrived(s: State, t: State, got: seq<Fetched>)
    requires TakenArrived(t) && t.arrived == s.arrived && t.taken == s.taken + Msgs(got)
    ensures forall i :: 0 <= i < |got| ==> got[i].msg in s.arrived
  {
    forall i | 0 <= i < |got| ensures got[i].msg in s.arrived { assert t.taken[|s.taken| + i] == got[i].msg; }
  }

  /** Behind a dispatch that raises, a fetched mail is left seen in the folder it was put in. */
  lemma RestStrands(c: Config, s: State, w: World, j: nat)
    requires Inv(c, s) && Balanced(s) && Reliable(true, w) && Remembers(c, Checked(c, s, w))
    requires var got := FetchedNew(c, s, w).got;
             && Reached(|got|, 0, w) <= j < |got| && Spared(true, s.server, got[j].uid)
             && Unmistaken(c, s.arrived, got[j].msg)
    ensures var f := FetchedNew(c, s, w).got[j]; exists k :: Stranded(Checked(c, s, w), k, f.msg, f.source)
  {
    var r, t := FetchedNew(c, s, w), Checked(c, s, w);
    var f, n := r.got[j], Reached(|r.got|, 0, w);
    PollInv(c, s, w);
    FetchInv(c, s, w);
    FetchServes(true, c, s, w);
    assert Wf(r.state.server) && Distinct(t.taken) && TakenArrived(t) && w.Lists() by { hide Checked, FetchedNew; }
    hide *;
    NotDispatched(s, t, r.got, n, j);
    GotArrived(s, t, r.got);
    Ignored(c, s, r.got, n, f.msg);
    LocatedRests(s.server, r.state.server, r.got, j);
    var k :| Rests(r.state.server, k, f.msg, f.source);
    RestsIs(r.state.server, k, f.msg, f.source);
    RestsIs(t.server, k, f.msg, f.source);
    CheckedStands(c, s, w, k, Copy(f.msg, f.source, true, false));
    IsStranded(t, k, f.msg, f.source);
  }

  lemma RestsIs(s: Server, k: Slot, m: Msg, folder: Folder)
    ensures Rests(s, k, m, folder) <==> Stands(s, k, Copy(m, folder, true, false))
  {
  }

  lemma IsStranded(s: State, k: Slot, m: Msg, folder: Folder)
    requires m in s.taken && m !in s.dispatched && Rests(s.server, k, m, folder)
    ensures Stranded(s, k, m, folder)
  {
  }

  /** The comment on [PATCH-6] says that an exception of the handler cannot strand a mail in
      Working. It does strand those fetched by the same poll behind it: in every later state of
      every run they are seen, in the folder they were put in, and not dispatched. */
  lemma BatchIsStranded(c: Config, s: State, w: World, j: nat, events: seq<Event>)
    requires Inv(c, s) && Balanced(s) && Reliable(true, w) && Legal(events)
    requires var got := FetchedNew(c, s, w).got;
             && Reached(|got|, 0, w) <= j < |got| && Spared(true, s.server, got[j].uid)
             && Unmistaken(c, After(c, Checked(c, s, w), events).arrived, got[j].msg)
    requires Remembers(c, After(c, Checked(c, s, w), events))
    ensures var f := FetchedNew(c, s, w).got[j];
            exists k :: Stranded(After(c, Checked(c, s, w), events), k, f.msg, f.source)
  {
    var t := Checked(c, s, w);
    var f := FetchedNew(c, s, w).got[j];
    PollInv(c, s, w);
    var got := FetchedNew(c, s, w).got;
    MsgsLength(got);
    MsgsCut(got, Reached(|got|, 0, w));
    assert w.Lists();
    hide Inv, Msgs, Reliable, Balanced, FetchedNew, Checked, After, Legal, Stranded, Spared;
    assert Grows(s, t, Msgs(got), Reached(|got|, 0, w));
    GrowsBalanced(s, t, Msgs(got), Reached(|got|, 0, w));
    RunInv(c, t, events);
    assert Remembers(c, t) && Unmistaken(c, s.arrived, f.msg);
    RestStrands(c, s, w, j);
    var k :| Stranded(t, k, f.msg, f.source);
    StaysStranded(c, t, events, k, f.msg, f.source);
  }

  // ---- two mails -----------------------------------------------------------------------

  const MOVED := MoveOutcomes(Ok, Ok, Ok, Ok, Ok)
  const TAKEN := Visit(Ok, true, Ok, true, MOVED)

  /** Every command succeeds, every mail is accepted and parses, and the first dispatch raises. */
  ghost function FirstRaises(): World {
    var list := Leading([0, 1]);
    World(Ok, list, (k: Slot) => TAKEN, (i: nat) => Handling(i == 0, Ok, list, (k: Slot) => MOVED))
  }

  lemma FirstRaisesIsReliable()
    ensures Reliable(true, FirstRaises())
  {
    LeadingEnumerates([0, 1]);
    hide Enumerates, Leading;
  }

  /** Two mails have come in. */
  ghost function TwoUnseen(m: Msg, n: Msg): State {
    var copies := map[0 := Copy(m, INBOX, false, false), 1 := Copy(n, INBOX, false, false)];
    State(Server(copies, 2), {}, false, {m, n}, [], [])
  }

  lemma TwoCome(c: Config, m: Msg, n: Msg)
    requires m != n
    ensures After(c, Start(), [Deliver(m), Deliver(n)]) == TwoUnseen(m, n)
  {
    AfterOneMore(c, Start(), [], Deliver(m));
    AfterOneMore(c, Start(), [Deliver(m)], Deliver(n));
    assert [] + [Deliver(m)] == [Deliver(m)] && [Deliver(m)] + [Deliver(n)] == [Deliver(m), Deliver(n)];
    assert Delivered(Delivered(Start(), m), n) == TwoUnseen(m, n);
    hide Delivered, TwoUnseen;
  }

  /** A mail goes to Working. */
  lemma ParksIt(c: Config, s: State, k: Slot)
    requires k !in s.uids && k in UnseenUids(s.server) && Parks(c, s.server.copies[k].msg)
    ensures var (r, m) := (Visited(c, s, k, TAKEN), s.server.copies[k].msg);
            && !r.failed && r.got == [Fetched(k, m, c.idOf(m), c.working)] && r.state.uids <= s.uids + {k}
            && r.state.server == Relocate(FlagSeen(s.server, INBOX, k), INBOX, k, c.working)
  {
    var g := FlagSeen(s.server, INBOX, k);
    assert Holds(g, INBOX, k) && g.copies[k].msg == s.server.copies[k].msg;
    hide Trim, FlagSeen, Relocate;
  }

  lemma OtherWaits(s: Server, j: Slot, k: Slot, dst: Folder)
    requires j != k && k in UnseenUids(s) && k < s.next
    ensures var r := Relocate(FlagSeen(s, INBOX, j), INBOX, j, dst); k in UnseenUids(r) && r.copies[k] == s.copies[k]
  {
  }

  lemma TwoAreListed(c: Config, m: Msg, n: Msg)
    ensures UnseenUids(TwoUnseen(m, n).server) == {0, 1}
    ensures FetchedNew(c, TwoUnseen(m, n), FirstRaises()) == VisitedAll(c, TwoUnseen(m, n), [0, 1] + [], FirstRaises())
  {
    LeadsTwo({0, 1}, 0, 1);
    assert [0, 1] + Ascending({0, 1} - {0, 1}) == [0, 1] + [];
    hide Leading, Ascending, Visited;
  }

  lemma TwoFacts(c: Config, m: Msg, n: Msg)
    ensures var (s, w) := (TwoUnseen(m, n), FirstRaises());
            && s.uids == {} && s.server.next == 2 && s.server.copies.Keys == {0, 1}
            && s.server.copies[0].msg == m && s.server.copies[1].msg == n
            && w.visit(0) == TAKEN && w.visit(1) == TAKEN
  {
    hide Leading;
  }

  lemma NoneLeft(c: Config, s: State, w: World)
    ensures VisitedAll(c, s, [], w) == Step(s, [], false)
  {
  }

  lemma FetchesTwo(c: Config, m: Msg, n: Msg)
    requires Parks(c, m) && Parks(c, n)
    ensures FetchedNew(c, TwoUnseen(m, n), FirstRaises()).got
         == [Fetched(0, m, c.idOf(m), c.working), Fetched(1, n, c.idOf(n), c.working)]
  {
    var s, w := TwoUnseen(m, n), FirstRaises();
    hide *;
    TwoFacts(c, m, n);
    TwoAreListed(c, m, n);
    ParksIt(c, s, 0);
    OtherWaits(s.server, 0, 1, c.working);
    var one := Visited(c, s, 0, TAKEN);
    ParksIt(c, one.state, 1);
    TwoThen(c, s, 0, 1, [], w);
    NoneLeft(c, Visited(c, one.state, 1, TAKEN).state, w);
  }

  /** Two mails wait, the handler raises on the first, and the second stays in Working, seen and
      not dispatched, in every later state of every run in which no other mail is taken for it. */
  lemma TwoMails(c: Config, m: Msg, n: Msg, events: seq<Event>)
    requires m != n && c.HasWorking() && c.done != "" && c.done != INBOX && c.idOf(m) != "" && c.idOf(n) != ""
    requires var s := After(c, Start(), [Deliver(m), Deliver(n), Poll(FirstRaises())]);
             Legal(events) && Unmistaken(c, After(c, s, events).arrived, n)
    ensures var s := After(c, Start(), [Deliver(m), Deliver(n), Poll(FirstRaises())]);
            && s.taken == [m, n] && s.dispatched == [m]
            && exists k :: Stranded(After(c, s, events), k, n, c.working)
  {
    TwoRun(c, m, n);
    var s, w := TwoUnseen(m, n), FirstRaises();
    assert Remembers(c, After(c, Checked(c, s, w), events));
    FirstRaisesIsReliable();
    hide *;
    TwoAreFine(c, m, n);
    BatchIsStranded(c, s, w, 1, events);
  }

  lemma TwoRun(c: Config, m: Msg, n: Msg)
    requires m != n && Parks(c, m) && Parks(c, n)
    ensures var (s, w) := (TwoUnseen(m, n), FirstRaises());
            && After(c, Start(), [Deliver(m), Deliver(n), Poll(w)]) == Checked(c, s, w)
            && FetchedNew(c, s, w).got == [Fetched(0, m, c.idOf(m), c.working), Fetched(1, n, c.idOf(n), c.working)]
            && Reached(2, 0, w) == 1 && Checked(c, s, w).taken == [m, n] && Checked(c, s, w).dispatched == [m]
  {
    var s, w := TwoUnseen(m, n), FirstRaises();
    var got := [Fetched(0, m, c.idOf(m), c.working), Fetched(1, n, c.idOf(n), c.working)];
    assert [Deliver(m), Deliver(n)] + [Poll(w)] == [Deliver(m), Deliver(n), Poll(w)];
    assert Msgs(got) == [m, n] && Msgs(got[..1]) == [m];
    assert s.taken == [] && s.dispatched == [] && [] + [m, n] == [m, n] && [] + [m] == [m];
    assert Stepped(c, s, Poll(w)) == Checked(c, s, w) && Reached(2, 0, w) == 1;
    FirstRaisesIsReliable();
    assert w.Lists();
    hide *;
    TwoCome(c, m, n);
    AfterOneMore(c, Start(), [Deliver(m), Deliver(n)], Poll(w));
    FetchesTwo(c, m, n);
    TwoAreFine(c, m, n);
    PollInv(c, s, w);
  }

  lemma TwoAreFine(c: Config, m: Msg, n: Msg)
    requires m != n
    ensures Inv(c, TwoUnseen(m, n)) && Balanced(TwoUnseen(m, n))
    ensures TwoUnseen(m, n).server.copies.Keys == {0, 1} && Spared(true, TwoUnseen(m, n).server, 1)
  {
    TwoCome(c, m, n);
    StartInv(c);
    RunInv(c, Start(), [Deliver(m), Deliver(n)]);
    hide Inv, After;
  }
}

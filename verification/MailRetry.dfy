/** A refusal loses no mail: what the server did not answer for stays in INBOX, unseen and not
    remembered, until a poll fetches or rejects it. */
module MailRetry {
  import opened MailServer
  import opened MailPoll
  import opened MailLifecycle
  import opened MailRuns
  import opened MailDelivery

  /** Header or body were refused: an exception or NO, without the flag being set. */
  predicate Refuses(v: Visit) {
    !v.header.Ok? || (v.accepted && !v.flag.Applied())
  }

  /** The gate rejected the mail, or its body came. */
  predicate Settles(v: Visit) {
    v.header.Ok? && (v.accepted ==> v.flag.Ok?)
  }

  /** The mail waits in INBOX for a later poll. */
  ghost predicate Eligible(s: State, k: Slot, m: Msg) {
    k !in s.uids && Stands(s.server, k, Copy(m, INBOX, false, false))
  }

  /** New mail waits. */
  lemma NewMailIsEligible(c: Config, s: State, m: Msg)
    requires Inv(c, s) && m !in s.arrived
    ensures Eligible(Delivered(s, m), s.server.next, m)
  {
  }

  // ---- one fetch -----------------------------------------------------------------------

  /** A visit whose header or body is refused changes nothing at all. */
  lemma RefusedVisit(c: Config, s: State, k: Slot, m: Msg, v: Visit)
    requires Eligible(s, k, m) && Refuses(v)
    ensures Visited(c, s, k, v).state == s
  {
    hide Consumed, Remembered, MoveResult, FlagSeen;
  }

  /** A visit remembers its own UID at most. */
  lemma VisitRemembersOwn(c: Config, s: State, slot: Slot, v: Visit)
    ensures Visited(c, s, slot, v).state.uids <= s.uids + {slot}
  {
    hide MoveResult, FlagSeen;
  }

  lemma OtherVisit(c: Config, s: State, slot: Slot, v: Visit, k: Slot, m: Msg)
    requires Wf(s.server) && Eligible(s, k, m) && slot != k
    ensures Eligible(Visited(c, s, slot, v).state, k, m)
  {
    hide Visited, Wf, Stands;
    VisitRemembersOwn(c, s, slot, v);
    VisitStands(c, s, slot, v, k, Copy(m, INBOX, false, false));
  }

  /** If it is refused, or not visited, the mail goes on waiting. */
  lemma {:induction false} VisitAllRefused(
    c: Config, s: State, p: Server, todo: seq<Slot>, w: World, k: Slot, m: Msg)
    requires Inv(c, s) && AllWaiting(p, s.server, todo) && Eligible(s, k, m)
    requires k in todo ==> Refuses(w.visit(k))
    ensures Eligible(VisitedAll(c, s, todo, w).state, k, m)
    decreases |todo|
  {
    if todo != [] {
      var v := w.visit(todo[0]);
      CopiesArrived(c, s, INBOX, todo[0]);
      AllWait(c, s, p, todo, v);
      hide Inv, Visited, AllWaiting, Waiting, Wf, Eligible, Refuses;
      VisitInv(c, s, p, todo[0], v);
      if todo[0] == k { RefusedVisit(c, s, k, m, v); } else { OtherVisit(c, s, todo[0], v, k, m); }
      var one := Visited(c, s, todo[0], v);
      if !one.failed { VisitAllRefused(c, one.state, p, todo[1..], w, k, m); }
    }
  }

  /** A UID is remembered only when its mail was rejected or its body came. */
  lemma SettlesOne(c: Config, s: State, k: Slot, m: Msg, v: Visit)
    requires Eligible(s, k, m)
    ensures k in Visited(c, s, k, v).state.uids ==> Settles(v)
  {
    hide Consumed, Remembered, MoveResult, FlagSeen;
  }

  /** And then it is, unless that is more than the memory holds. */
  lemma SettledIsRemembered(c: Config, s: State, k: Slot, m: Msg, v: Visit)
    requires Eligible(s, k, m) && |s.uids| < c.seenMax
    ensures k in Visited(c, s, k, v).state.uids <==> Settles(v)
  {
    hide MoveResult, FlagSeen;
    assert |s.uids + {k}| <= c.seenMax;
  }

  lemma {:induction false} OthersRemember(c: Config, s: State, todo: seq<Slot>, w: World, k: Slot)
    requires k !in todo && k !in s.uids
    ensures k !in VisitedAll(c, s, todo, w).state.uids
    decreases |todo|
  {
    if todo != [] {
      hide Visited;
      VisitRemembersOwn(c, s, todo[0], w.visit(todo[0]));
      var one := Visited(c, s, todo[0], w.visit(todo[0]));
      if !one.failed { OthersRemember(c, one.state, todo[1..], w, k); }
    }
  }

  lemma {:induction false} VisitAllRemembers(
    c: Config, s: State, p: Server, todo: seq<Slot>, w: World, k: Slot, m: Msg)
    requires Inv(c, s) && AllWaiting(p, s.server, todo) && Eligible(s, k, m)
    ensures k in VisitedAll(c, s, todo, w).state.uids ==> k in todo && Settles(w.visit(k))
    decreases |todo|
  {
    if todo != [] {
      var v := w.visit(todo[0]);
      CopiesArrived(c, s, INBOX, todo[0]);
      AllWait(c, s, p, todo, v);
      assert todo[0] !in todo[1..];
      hide Inv, Visited, AllWaiting, Waiting, Wf, Settles;
      VisitInv(c, s, p, todo[0], v);
      var one := Visited(c, s, todo[0], v);
      if todo[0] == k {
        SettlesOne(c, s, k, m, v);
        if k !in one.state.uids && !one.failed { OthersRemember(c, one.state, todo[1..], w, k); }
      } else {
        OtherVisit(c, s, todo[0], v, k, m);
        if !one.failed { VisitAllRemembers(c, one.state, p, todo[1..], w, k, m); }
      }
    }
  }

  /** So a UID enters the memory only in a poll that rejected its mail or got its body. */
  lemma RemembersOnlySettled(c: Config, s: State, w: World, k: Slot, m: Msg)
    requires Inv(c, s) && w.Lists() && Eligible(s, k, m)
    ensures k in Checked(c, s, w).uids ==> w.search.Ok? && Settles(w.visit(k))
  {
    CopiesArrived(c, s, INBOX, 0);
    UnseenWait(s.server, w.list);
    assert k !in s.uids;
    var r := FetchedNew(c, s, w);
    hide Inv, UnseenUids, Visited, AllWaiting, Enumerates, Wf, Eligible, Settles, Dispatched;
    if w.search.Ok? { VisitAllRemembers(c, s, s.server, w.list(UnseenUids(s.server)), w, k, m); }
    DispatchKeepsMemory(c, r.state, r.got, 0, w);
  }

  lemma {:induction false} MoveAllKeepsMemory(
    s: State, from: Folder, todo: seq<Slot>, dst: Folder, move: Slot -> MoveOutcomes)
    ensures MovedAll(s, from, todo, dst, move).uids == s.uids
    decreases |todo|
  {
    hide MoveResult;
    if todo != [] { MoveAllKeepsMemory(Moved(s, from, todo[0], dst, move(todo[0])), from, todo[1..], dst, move); }
  }

  lemma DispatchOneKeepsMemory(c: Config, s: State, f: Fetched, h: Handling)
    ensures Dispatched(c, s, f, h).uids == s.uids
  {
    var t := s.(dispatched := s.dispatched + [f.msg]);
    hide FoundUids;
    MoveAllKeepsMemory(t, f.source, h.list(FoundUids(c, t.server, f.source, f.messageId)), c.done, h.move);
  }

  /** Dispatching remembers and forgets nothing. */
  lemma {:induction false} DispatchKeepsMemory(c: Config, s: State, got: seq<Fetched>, i: nat, w: World)
    requires i <= |got|
    ensures DispatchedFrom(c, s, got, i, w).uids == s.uids
    decreases |got| - i
  {
    hide Dispatched;
    if i < |got| {
      DispatchOneKeepsMemory(c, s, got[i], w.handle(i));
      DispatchKeepsMemory(c, Dispatched(c, s, got[i], w.handle(i)), got, i + 1, w);
    }
  }

  lemma FetchRefused(c: Config, s: State, w: World, k: Slot, m: Msg)
    requires Inv(c, s) && w.Lists() && Eligible(s, k, m) && Refuses(w.visit(k))
    ensures Eligible(FetchedNew(c, s, w).state, k, m)
  {
    CopiesArrived(c, s, INBOX, 0);
    UnseenWait(s.server, w.list);
    hide Inv, UnseenUids, Visited, AllWaiting, Enumerates, Wf, Eligible, Refuses;
    if w.search.Ok? { VisitAllRefused(c, s, s.server, w.list(UnseenUids(s.server)), w, k, m); }
  }

  // ---- one poll ------------------------------------------------------------------------

  /** An eligible mail was not taken. */
  lemma EligibleIsNotTaken(c: Config, s: State, k: Slot, m: Msg)
    requires Inv(c, s) && Remembers(c, s) && Eligible(s, k, m)
    ensures m !in s.taken
  {
    hide NothingLost, WorkingFindable, Distinct;
    assert Open(s.server, Memory(c, s), k);
  }

  lemma OthersIgnore(c: Config, s: State, r: State, got: seq<Fetched>, m: Msg)
    requires TakenArrived(r) && r.arrived == s.arrived && r.taken == s.taken + Msgs(got) && m !in r.taken
    requires AllWell(c, got) && Unmistaken(c, s.arrived, m)
    ensures forall i :: 0 <= i < |got| ==> Ignores(c, got[i], m)
  {
    forall i | 0 <= i < |got| ensures Ignores(c, got[i], m) {
      assert r.taken[|s.taken| + i] == got[i].msg;
      assert WellFetched(c, got[i]);
    }
  }

  /** A poll that refuses the mail leaves it waiting. */
  lemma PollRefused(c: Config, s: State, w: World, k: Slot, m: Msg)
    requires Inv(c, s) && w.Lists() && Eligible(s, k, m) && Refuses(w.visit(k))
    requires Remembers(c, Checked(c, s, w)) && Unmistaken(c, s.arrived, m)
    ensures Eligible(Checked(c, s, w), k, m)
  {
    var r := FetchedNew(c, s, w);
    var t := Checked(c, s, w);
    PollInv(c, s, w);
    FetchInv(c, s, w);
    FetchRefused(c, s, w, k, m);
    DispatchKeepsMemory(c, r.state, r.got, 0, w);
    DispatchAllInv(c, r.state, r.got, 0, w);
    EligibleIsNotTaken(c, r.state, k, m);
    assert Wf(r.state.server) && TakenArrived(r.state) by { hide FetchedNew; }
    hide Inv, Wf, TakenArrived, FetchedNew, DispatchedFrom, Stands, AllWell, Unmistaken, Ignores, Msgs;
    OthersIgnore(c, s, r.state, r.got, m);
    CheckedStands(c, s, w, k, Copy(m, INBOX, false, false));
  }

  // ---- runs ----------------------------------------------------------------------------

  /** Every poll of the run refuses the mail at this UID. */
  ghost predicate AllRefuse(events: seq<Event>, k: Slot) {
    forall i :: 0 <= i < |events| && events[i].Poll? ==> Refuses(events[i].w.visit(k))
  }

  lemma DeliverEligible(c: Config, s: State, n: Msg, k: Slot, m: Msg)
    requires Inv(c, s) && Eligible(s, k, m)
    ensures Eligible(Delivered(s, n), k, m)
  {
  }

  lemma StepRefused(c: Config, s: State, e: Event, k: Slot, m: Msg)
    requires Inv(c, s) && Legal([e]) && AllRefuse([e], k) && Eligible(s, k, m)
    requires Remembers(c, Stepped(c, s, e)) && Unmistaken(c, s.arrived, m)
    ensures Eligible(Stepped(c, s, e), k, m)
  {
    assert [e][0] == e;
    hide Inv, Eligible, Unmistaken, Checked, Delivered, Refuses;
    match e
    case Deliver(n) => DeliverEligible(c, s, n, k, m);
    case Poll(w) => PollRefused(c, s, w, k, m);
  }

  lemma RefusalParts(events: seq<Event>, k: Slot)
    requires events != [] && AllRefuse(events, k)
    ensures AllRefuse(events[..|events| - 1], k) && AllRefuse([events[|events| - 1]], k)
  {
  }

  /** However often its header or body is refused, the mail goes on waiting. */
  lemma {:induction false} RunRefused(c: Config, s: State, events: seq<Event>, k: Slot, m: Msg)
    requires Inv(c, s) && Balanced(s) && Legal(events) && AllRefuse(events, k) && Eligible(s, k, m)
    requires Remembers(c, After(c, s, events)) && Unmistaken(c, After(c, s, events).arrived, m)
    ensures Eligible(After(c, s, events), k, m)
    decreases |events|
  {
    hide Inv, Balanced, Eligible, Stepped, Refuses;
    if events != [] {
      LegalParts(events);
      RefusalParts(events, k);
      var before := events[..|events| - 1];
      RunInv(c, s, before);
      var t := After(c, s, before);
      var e := events[|events| - 1];
      StepInv(c, t, e);
      RunRefused(c, s, before, k, m);
      StepRefused(c, t, e, k, m);
    }
  }

  /** And then one reliable poll that accepts it, and in which nothing raises, dispatches and
      finishes it. */
  lemma RetriedIsFinished(c: Config, s: State, events: seq<Event>, w: World, k: Slot, m: Msg)
    requires Inv(c, s) && Balanced(s) && Legal(events) && AllRefuse(events, k) && Eligible(s, k, m)
    requires Remembers(c, After(c, s, events)) && Unmistaken(c, After(c, s, events).arrived, m)
    requires c.Searches() && Reliable(true, w) && forall i :: !w.handle(i).raises
    requires w.visit(k).accepted && w.visit(k).parsed
    ensures var t := After(c, s, events);
            exists f :: f in FetchedNew(c, t, w).got && f.uid == k && f.msg == m
                        && Finished(true, c, Checked(c, t, w).server, f)
  {
    RunInv(c, s, events);
    RunRefused(c, s, events, k, m);
    var t := After(c, s, events);
    assert InboxUnseen(t.server, k) && k !in t.uids && Spared(true, t.server, k) && t.server.copies[k].msg == m by {
      hide After, Reliable;
    }
    hide Inv, Balanced, After, Reliable, FetchedNew, Checked, Finished, UnseenUids;
    WaitingIsFinished(true, c, t, w, k);
  }

  // ---- other failures ------------------------------------------------------------------

  lemma {:induction false} VisitAllStops(
    c: Config, s: State, p: Server, todo: seq<Slot>, w: World, n: nat, k: Slot, m: Msg)
    requires Inv(c, s) && AllWaiting(p, s.server, todo) && Eligible(s, k, m)
    requires n < |todo| && todo[n] !in s.uids && w.visit(todo[n]).header.Raised?
    requires forall i :: 0 <= i <= n ==> todo[i] != k
    ensures VisitedAll(c, s, todo, w).failed && Eligible(VisitedAll(c, s, todo, w).state, k, m)
    decreases |todo|
  {
    var v := w.visit(todo[0]);
    var one := Visited(c, s, todo[0], v);
    CopiesArrived(c, s, INBOX, todo[0]);
    AllWait(c, s, p, todo, v);
    assert n == 0 ==> one == Step(s, [], true);
    assert n > 0 ==> todo[n] != todo[0] && todo[1..][n - 1] == todo[n];
    hide Inv, Visited, AllWaiting, Waiting, Wf, Eligible;
    VisitInv(c, s, p, todo[0], v);
    OtherVisit(c, s, todo[0], v, k, m);
    VisitRemembersOwn(c, s, todo[0], v);
    if !one.failed { VisitAllStops(c, one.state, p, todo[1..], w, n - 1, k, m); }
  }

  /** A connection that breaks leaves the rest of the batch for the next poll. */
  lemma FailureLeavesRest(c: Config, s: State, w: World, n: nat, k: Slot, m: Msg)
    requires Inv(c, s) && w.Lists() && Eligible(s, k, m) && w.search.Ok?
    requires var todo := w.list(UnseenUids(s.server));
             && n < |todo| && todo[n] !in s.uids && w.visit(todo[n]).header.Raised?
             && forall i :: 0 <= i <= n ==> todo[i] != k
    ensures FetchedNew(c, s, w).failed && Eligible(FetchedNew(c, s, w).state, k, m)
  {
    CopiesArrived(c, s, INBOX, 0);
    UnseenWait(s.server, w.list);
    hide Inv, UnseenUids, Visited, AllWaiting, Enumerates, Wf, Eligible;
    VisitAllStops(c, s, s.server, w.list(UnseenUids(s.server)), w, n, k, m);
  }

  /** A rejected mail goes to Done although the server refuses to flag it as seen. */
  lemma RejectedIsMoved(c: Config, s: State, slot: Slot, v: Visit)
    requires Wf(s.server) && Holds(s.server, INBOX, slot) && slot !in s.uids
    requires v.header.Ok? && !v.accepted && v.flag.No? && Willing(v.move) && c.done != "" && c.done != INBOX
    ensures var r := Visited(c, s, slot, v);
            && !r.failed && r.got == [] && slot !in r.state.server.copies
            && InFolder(r.state.server, c.done, s.server.copies[slot].msg)
  {
    var t := Remembered(c, s, slot);
    MoveSucceeds(t.server, INBOX, slot, c.done, v.move);
    var r := MoveResult(t.server, INBOX, slot, c.done, v.move).0;
    hide MoveResult, Trim, Willing;
    assert s.server.next in r.copies && r.copies[s.server.next].msg == s.server.copies[slot].msg;
  }

  /** Every exception means that the command was not carried out. */
  predicate Honest(o: MoveOutcomes) {
    && o.move != Raised(true) && o.copy != Raised(true) && o.store != Raised(true)
    && o.uidExpunge != Raised(true) && o.expunge != Raised(true)
  }

  lemma HonestMove(s: Server, folder: Folder, slot: Slot, dst: Folder, o: MoveOutcomes)
    requires Wf(s) && Holds(s, folder, slot) && dst != folder && Honest(o)
    ensures var (r, moved) := MoveResult(s, folder, slot, dst, o);
            if moved then Holds(r, dst, s.next) && r.copies[s.next].msg == s.copies[slot].msg
            else Holds(r, folder, slot) && r.copies[slot].msg == s.copies[slot].msg
  {
  }

  /** If no answer was lost, the record names a folder the mail is in, whatever was refused. */
  lemma RecordIsRight(c: Config, s: State, slot: Slot, o: MoveOutcomes)
    requires Wf(s.server) && Holds(s.server, INBOX, slot) && c.working != INBOX && Honest(o)
    ensures var (t, f) := Parked(c, s, slot, o);
            && f.uid == slot && f.msg == s.server.copies[slot].msg && f.messageId == c.idOf(f.msg)
            && InFolder(t.server, f.source, f.msg)
            && (c.done == "" || c.working == "" || f.messageId == "" ==> f.source == INBOX && t == s)
  {
    HonestMove(s.server, INBOX, slot, c.working, o);
    hide MoveResult;
    var (t, f) := Parked(c, s, slot, o);
    if f.source == INBOX {
      assert slot in t.server.copies && t.server.copies[slot].msg == f.msg;
    } else {
      assert s.server.next in t.server.copies && t.server.copies[s.server.next].msg == f.msg;
    }
  }
}

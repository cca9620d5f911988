/** When a mail can be dispatched twice: Done is INBOX, and UIDs can be forgotten. */
module MailRepeats {
  import opened MailServer
  import opened MailPoll
  import opened MailLifecycle
  import opened MailRuns

  // ---- searches that list certain UIDs first -------------------------------------------

  ghost function Ascending(s: set<Slot>): seq<Slot> {
    if s == {} then [] else [Least(s)] + Ascending(s - {Least(s)})
  }

  /** The chosen UIDs first, in this order. */
  ghost function Led(s: set<Slot>, chosen: seq<Slot>): seq<Slot> {
    if chosen == [] then Ascending(s)
    else if chosen[0] in s then [chosen[0]] + Led(s - {chosen[0]}, chosen[1..])
    else Led(s, chosen[1..])
  }

  lemma {:induction false} AscendingLists(s: set<Slot>)
    ensures ListsOnce(s, Ascending(s))
    decreases |s|
  {
    if s != {} { AscendingLists(s - {Least(s)}); }
  }

  lemma {:induction false} LedLists(s: set<Slot>, chosen: seq<Slot>)
    ensures ListsOnce(s, Led(s, chosen))
    decreases |chosen|
  {
    if chosen == [] {
      AscendingLists(s);
    } else {
      LedLists(s - {chosen[0]}, chosen[1..]);
      LedLists(s, chosen[1..]);
    }
  }

  ghost function Leading(chosen: seq<Slot>): Listing {
    s => Led(s, chosen)
  }

  lemma LeadingEnumerates(chosen: seq<Slot>)
    ensures Enumerates(Leading(chosen))
  {
    forall s ensures ListsOnce(s, Leading(chosen)(s)) { LedLists(s, chosen); }
  }

  lemma LeadsOne(s: set<Slot>, k: Slot)
    requires k in s
    ensures Leading([k])(s) == [k] + Ascending(s - {k})
  {
    assert [k][1..] == [] && Led(s - {k}, []) == Ascending(s - {k});
    assert Led(s, [k]) == [k] + Led(s - {k}, [k][1..]);
  }

  lemma LeadsTwo(s: set<Slot>, j: Slot, k: Slot)
    requires j in s && k in s && j != k
    ensures Leading([j, k])(s) == [j, k] + Ascending(s - {j, k})
  {
    assert [j, k][1..] == [k] && s - {j} - {k} == s - {j, k};
    LeadsOne(s - {j}, k);
    assert Led(s, [j, k]) == [j] + Led(s - {j}, [j, k][1..]);
  }

  // ---- the polls -----------------------------------------------------------------------

  const NOTHING := MoveOutcomes(No, No, No, No, No)

  /** MOVE is refused, COPY works, STORE is refused, and UID EXPUNGE finds nothing to do. */
  const DOUBLES := MoveOutcomes(No, Ok, No, Ok, Ok)

  const SKIPPED := Visit(No, false, No, false, NOTHING)

  /** A poll that gives the chosen UIDs this answer, no answer about any other, and in which
      no dispatch raises. */
  ghost function Turn(chosen: seq<Slot>, v: Visit): World {
    var list := Leading(chosen);
    World(Ok, list, (k: Slot) => if k in chosen then v else SKIPPED,
          (i: nat) => Handling(false, No, list, (k: Slot) => NOTHING))
  }

  /** The gate rejects the mail, and STORE does not flag it. */
  const REJECTED := Visit(Ok, false, No, false, DOUBLES)
  const ACCEPTED := Visit(Ok, true, Ok, true, NOTHING)

  lemma TurnLists(chosen: seq<Slot>, v: Visit)
    ensures Turn(chosen, v).Lists()
  {
    LeadingEnumerates(chosen);
  }

  /** Nothing happens to a UID that is remembered or about which the server does not answer. */
  lemma {:induction false} SkipsAll(c: Config, s: State, todo: seq<Slot>, w: World)
    requires forall i :: 0 <= i < |todo| ==> w.visit(todo[i]) == SKIPPED
    ensures VisitedAll(c, s, todo, w) == Step(s, [], false)
    decreases |todo|
  {
    if todo != [] {
      hide BodyFetched, Consumed;
      SkipsAll(c, s, todo[1..], w);
    }
  }

  // ---- one mail, rejected over and over ------------------------------------------------

  /** The UIDs below `n`. */
  ghost function Below(n: nat): (r: set<Slot>)
    ensures forall k: Slot :: k in r <==> k < n
  {
    if n == 0 then {} else Below(n - 1) + {n - 1}
  }

  /** INBOX holds `n + 1` unseen copies of the mail. */
  ghost function Copies(m: Msg, n: nat): Server {
    var uids := Below(n + 1);
    Server(map k | k in uids :: Copy(m, INBOX, false, false), n + 1)
  }

  lemma DoublesOne(m: Msg, n: nat)
    ensures MoveResult(Copies(m, n), INBOX, n, INBOX, DOUBLES).0 == Copies(m, n + 1)
  {
  }

  lemma AllUnseen(m: Msg, n: nat)
    ensures UnseenUids(Copies(m, n)) == Below(n + 1)
  {
  }

  /** One poll more makes one copy more, and the rejected UID is remembered. */
  lemma RejectsOne(c: Config, s: State, m: Msg, n: nat)
    requires c.done == INBOX && s.server == Copies(m, n) && n !in s.uids
    ensures Checked(c, s, Turn([n], REJECTED)) == Remembered(c, s, n).(server := Copies(m, n + 1))
  {
    var w := Turn([n], REJECTED);
    var rest := Ascending(Below(n + 1) - {n});
    AllUnseen(m, n);
    LeadsOne(Below(n + 1), n);
    AscendingLists(Below(n + 1) - {n});
    assert forall i :: 0 <= i < |rest| ==> rest[i] in Below(n + 1) - {n};
    DoublesOne(m, n);
    var one := Visited(c, s, n, REJECTED);
    assert one == Consumed(c, s, n, REJECTED) by { hide Consumed, BodyFetched, MoveResult, Copies; }
    hide Visited, Led, Least, Trim, UnseenUids, Copies, MoveResult;
    SkipsAll(c, one.state, rest, w);
    assert VisitedAll(c, s, [n] + rest, w) == Step(one.state, [], false);
  }

  // ---- the run -------------------------------------------------------------------------

  ghost function Rejecting(m: Msg, n: nat): seq<Event> {
    if n == 0 then [Deliver(m)] else Rejecting(m, n - 1) + [Poll(Turn([n - 1], REJECTED))]
  }

  lemma AfterOneMore(c: Config, s: State, events: seq<Event>, e: Event)
    ensures After(c, s, events + [e]) == Stepped(c, After(c, s, events), e)
  {
    assert (events + [e])[..|events + [e]| - 1] == events;
  }

  lemma {:induction false} BelowCounts(n: nat)
    ensures |Below(n)| == n
  {
    if n == 0 {
      assert Below(0) == {};
    } else {
      BelowCounts(n - 1);
      assert Below(n) == Below(n - 1) + {n - 1};
    }
  }

  /** The state after `n` polls, in which all rejected UIDs are remembered. */
  ghost function Rejected(m: Msg, n: nat): State {
    State(Copies(m, n), Below(n), false, {m}, [], [])
  }

  lemma RejectsNone(c: Config, m: Msg)
    ensures After(c, Start(), Rejecting(m, 0)) == Rejected(m, 0)
  {
    AfterOneMore(c, Start(), [], Deliver(m));
    assert [] + [Deliver(m)] == [Deliver(m)];
    assert Copies(m, 0).copies == map[0 := Copy(m, INBOX, false, false)];
    assert Below(0) == {};
  }

  lemma RejectStep(c: Config, m: Msg, n: nat)
    requires c.done == INBOX && After(c, Start(), Rejecting(m, n)) == Rejected(m, n)
    ensures After(c, Start(), Rejecting(m, n + 1)) == Checked(c, Rejected(m, n), Turn([n], REJECTED))
    ensures Checked(c, Rejected(m, n), Turn([n], REJECTED))
         == Remembered(c, Rejected(m, n), n).(server := Copies(m, n + 1))
  {
    var w := Turn([n], REJECTED);
    assert Rejecting(m, n + 1) == Rejecting(m, n) + [Poll(w)];
    assert n !in Below(n);
    hide Checked, Remembered, After, Copies, Turn, Rejecting, Below;
    AfterOneMore(c, Start(), Rejecting(m, n), Poll(w));
    RejectsOne(c, Rejected(m, n), m, n);
  }

  /** One UID more is remembered while that stays within the cap. */
  lemma RememberBelow(c: Config, m: Msg, n: nat)
    requires n < c.seenMax
    ensures Remembered(c, Rejected(m, n), n).(server := Copies(m, n + 1)) == Rejected(m, n + 1)
  {
    BelowCounts(n + 1);
    assert Below(n) + {n} == Below(n + 1);
    hide Copies, Below;
  }

  lemma {:induction false} RejectsMany(c: Config, m: Msg, n: nat)
    requires c.done == INBOX && n <= c.seenMax
    ensures After(c, Start(), Rejecting(m, n)) == Rejected(m, n)
  {
    hide After, Checked, Remembered, Rejected, Rejecting;
    if n == 0 {
      RejectsNone(c, m);
    } else {
      RejectsMany(c, m, n - 1);
      RejectStep(c, m, n - 1);
      RememberBelow(c, m, n - 1);
    }
  }

  lemma DropsLeast(cap: nat, s: set<Slot>)
    requires |s| > cap >= 2
    ensures 0 !in Trim(cap, s)
  {
    var kept := Trim(cap, s);
    assert |kept| < |s|;
    assert kept != s;
    var j :| j in s && j !in kept;
    assert 0 in kept ==> j < 0;
  }

  /** Once they are more than the cap, the first one is forgotten. */
  lemma RememberOver(c: Config, m: Msg)
    requires c.seenMax >= 2
    ensures var s := Remembered(c, Rejected(m, c.seenMax), c.seenMax);
            0 !in s.uids && c.seenMax + 1 !in s.uids && s.taken == [] && s.dispatched == []
  {
    var n := c.seenMax;
    var s := Remembered(c, Rejected(m, n), n);
    assert s.uids == Trim(n, Below(n) + {n}) && s.taken == [] && s.dispatched == [] by { hide Copies, Below, Trim; }
    hide *;
    TrimBelow(n);
  }

  lemma BelowNext(n: nat)
    ensures Below(n) + {n} == Below(n + 1) && n + 1 !in Below(n + 1)
  {
  }

  lemma TrimBelow(n: nat)
    requires n >= 2
    ensures 0 !in Trim(n, Below(n) + {n}) && n + 1 !in Trim(n, Below(n) + {n})
  {
    hide *;
    BelowNext(n);
    BelowCounts(n + 1);
    DropsLeast(n, Below(n + 1));
    assert Trim(n, Below(n + 1)) <= Below(n + 1);
  }

  lemma Forgets(c: Config, m: Msg)
    requires c.done == INBOX && c.seenMax >= 2
    ensures var s := After(c, Start(), Rejecting(m, c.seenMax + 1));
            && s.server == Copies(m, c.seenMax + 1) && 0 !in s.uids && c.seenMax + 1 !in s.uids
            && s.taken == [] && s.dispatched == []
  {
    hide *;
    RememberOver(c, m);
    RejectsMany(c, m, c.seenMax);
    RejectStep(c, m, c.seenMax);
  }

  lemma {:induction false} RejectingIsLegal(m: Msg, n: nat)
    ensures Legal(Rejecting(m, n))
  {
    if n > 0 {
      RejectingIsLegal(m, n - 1);
      TurnLists([n - 1], REJECTED);
    }
  }

  // ---- both copies are accepted --------------------------------------------------------

  /** An unseen mail that is not remembered is taken, and only its flag changes. */
  lemma Takes(c: Config, s: State, k: Slot)
    requires k !in s.uids && k in UnseenUids(s.server)
    ensures var r := Visited(c, s, k, ACCEPTED);
            && !r.failed && r.state.server == FlagSeen(s.server, INBOX, k) && r.state.uids <= s.uids + {k}
            && |r.got| == 1 && r.got[0].msg == s.server.copies[k].msg
  {
    assert Flagging(s, k, Ok).server.copies[k].msg == s.server.copies[k].msg;
    hide Trim, FlagSeen;
  }

  lemma SeenLeaves(s: Server, j: Slot, k: Slot)
    requires j != k && k in UnseenUids(s)
    ensures k in UnseenUids(FlagSeen(s, INBOX, j)) && FlagSeen(s, INBOX, j).copies[k] == s.copies[k]
  {
  }

  /** A mail of which two unseen copies are not remembered is fetched twice by one poll. */
  lemma FetchesBoth(c: Config, s: State, j: Slot, k: Slot)
    requires j != k && j !in s.uids && k !in s.uids && {j, k} <= UnseenUids(s.server)
    ensures var r := FetchedNew(c, s, Turn([j, k], ACCEPTED));
            && |r.got| == 2 && r.got[0].msg == s.server.copies[j].msg && r.got[1].msg == s.server.copies[k].msg
  {
    var w := Turn([j, k], ACCEPTED);
    var rest := Ascending(UnseenUids(s.server) - {j, k});
    var one := Visited(c, s, j, ACCEPTED);
    var two := Visited(c, one.state, k, ACCEPTED);
    TurnFetches(c, s, j, k);
    assert j in {j, k} && k in {j, k} && w.visit(j) == ACCEPTED && w.visit(k) == ACCEPTED;
    hide *;
    Takes(c, s, j);
    SeenLeaves(s.server, j, k);
    Takes(c, one.state, k);
    SkipsAll(c, two.state, rest, w);
    TwoThen(c, s, j, k, rest, w);
  }

  lemma TurnFetches(c: Config, s: State, j: Slot, k: Slot)
    requires j != k && {j, k} <= UnseenUids(s.server)
    ensures var w := Turn([j, k], ACCEPTED);
            var rest := Ascending(UnseenUids(s.server) - {j, k});
            && FetchedNew(c, s, w) == VisitedAll(c, s, [j, k] + rest, w)
            && forall i :: 0 <= i < |rest| ==> w.visit(rest[i]) == SKIPPED
  {
    var rest := Ascending(UnseenUids(s.server) - {j, k});
    assert j in {j, k} && k in {j, k};
    LeadsTwo(UnseenUids(s.server), j, k);
    AscendingLists(UnseenUids(s.server) - {j, k});
    assert forall i :: 0 <= i < |rest| ==> rest[i] in UnseenUids(s.server) - {j, k};
    hide Visited, Ascending, UnseenUids, Leading;
  }

  lemma TwoThen(c: Config, s: State, j: Slot, k: Slot, rest: seq<Slot>, w: World)
    requires !Visited(c, s, j, w.visit(j)).failed
    requires !Visited(c, Visited(c, s, j, w.visit(j)).state, k, w.visit(k)).failed
    ensures var one := Visited(c, s, j, w.visit(j));
            var two := Visited(c, one.state, k, w.visit(k));
            VisitedAll(c, s, [j, k] + rest, w).got == one.got + two.got + VisitedAll(c, two.state, rest, w).got
  {
    hide Visited;
    assert ([j, k] + rest)[1..] == [k] + rest && ([k] + rest)[1..] == rest;
    var one := Visited(c, s, j, w.visit(j));
    var two := Visited(c, one.state, k, w.visit(k));
    var more := VisitedAll(c, two.state, rest, w).got;
    assert VisitedAll(c, one.state, [k] + rest, w).got == two.got + more;
    assert one.got + (two.got + more) == one.got + two.got + more;
  }

  lemma Twice(mails: seq<Msg>, got: seq<Fetched>)
    requires mails == Msgs(got) && |got| == 2 && got[0].msg == got[1].msg
    ensures !Distinct(mails)
  {
    assert mails[0] == mails[1];
  }

  /** And dispatched twice. */
  lemma DispatchesBoth(c: Config, s: State, j: Slot, k: Slot)
    requires Inv(c, s) && j != k && j !in s.uids && k !in s.uids && {j, k} <= UnseenUids(s.server)
    requires s.server.copies[j].msg == s.server.copies[k].msg && s.dispatched == []
    ensures !Distinct(Checked(c, s, Turn([j, k], ACCEPTED)).dispatched)
  {
    var w := Turn([j, k], ACCEPTED);
    assert forall i :: !w.handle(i).raises;
    TurnLists([j, k], ACCEPTED);
    FetchesBoth(c, s, j, k);
    var got := FetchedNew(c, s, w).got;
    hide Inv, FetchedNew, Checked, Turn, UnseenUids, Msgs, Distinct;
    AllDispatchedIff(c, s, w);
    Twice(Checked(c, s, w).dispatched, got);
  }

  /** One mail is rejected until its first UID is forgotten, then accepted under two UIDs. */
  ghost function Repeating(c: Config, m: Msg): seq<Event> {
    Rejecting(m, c.seenMax + 1) + [Poll(Turn([0, c.seenMax + 1], ACCEPTED))]
  }

  lemma RepeatingIsLegal(c: Config, m: Msg)
    ensures Legal(Repeating(c, m))
  {
    RejectingIsLegal(m, c.seenMax + 1);
    TurnLists([0, c.seenMax + 1], ACCEPTED);
    hide Rejecting, Turn;
  }

  lemma BothUnseen(m: Msg, n: nat)
    ensures {0, n} <= UnseenUids(Copies(m, n)) && Copies(m, n).copies[0].msg == Copies(m, n).copies[n].msg
  {
  }

  lemma Repeats(c: Config, m: Msg)
    requires c.done == INBOX && c.seenMax >= 2
    ensures Legal(Repeating(c, m)) && !Distinct(After(c, Start(), Repeating(c, m)).dispatched)
  {
    var n := c.seenMax + 1;
    var events := Rejecting(m, n);
    assert Balanced(Start());
    hide *;
    RepeatingIsLegal(c, m);
    RejectingIsLegal(m, n);
    StartInv(c);
    Forgets(c, m);
    RunInv(c, Start(), events);
    BothUnseen(m, n);
    DispatchesBoth(c, After(c, Start(), events), 0, n);
    RepeatsLast(c, m);
  }

  lemma RepeatsLast(c: Config, m: Msg)
    ensures After(c, Start(), Repeating(c, m))
         == Checked(c, After(c, Start(), Rejecting(m, c.seenMax + 1)), Turn([0, c.seenMax + 1], ACCEPTED))
  {
    hide After, Checked, Rejecting, Turn;
    AfterOneMore(c, Start(), Rejecting(m, c.seenMax + 1), Poll(Turn([0, c.seenMax + 1], ACCEPTED)));
  }

  lemma NeverForgets(c: Config, events: seq<Event>)
    requires Legal(events) && (c.done != INBOX || c.seenMax < 2)
    ensures Distinct(After(c, Start(), events).dispatched)
  {
    hide After, Legal, Distinct;
    RunIsSafe(c, events);
  }

  /** In every run no mail is dispatched twice, exactly when Done is not INBOX or the cap is so
      small that trimming to half of it keeps everything. */
  lemma AtMostOnceIff(c: Config)
    ensures (forall events :: Legal(events) ==> Distinct(After(c, Start(), events).dispatched)) <==>
            (c.done != INBOX || c.seenMax < 2)
  {
    hide After, Legal, Distinct;
    if c.done != INBOX || c.seenMax < 2 {
      forall events | Legal(events) ensures Distinct(After(c, Start(), events).dispatched) { NeverForgets(c, events); }
    } else {
      Repeats(c, 0);
    }
  }
}

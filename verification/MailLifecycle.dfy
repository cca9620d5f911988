/** What every step of a poll keeps, whatever fails: no mail is lost, none is fetched twice as
    long as the adapter remembers, and what is in Working can be found again. */
module MailLifecycle {
  import opened MailServer
  import opened MailPoll

  // ---- the invariant -------------------------------------------------------------------

  ghost predicate NothingLost(s: Server, arrived: set<Msg>) {
    && Wf(s)
    && (forall m :: m in arrived ==> Live(s, m))
    && (forall k :: k in s.copies ==> s.copies[k].msg in arrived)
  }

  /** A later poll would fetch this copy: it is in INBOX, unseen and not remembered. */
  ghost predicate Open(s: Server, memory: set<Slot>, k: Slot) {
    k in s.copies && s.copies[k].folder == INBOX && !s.copies[k].seen && k !in memory
  }

  /** No copy of this mail would be fetched. */
  ghost predicate Closed(s: Server, memory: set<Slot>, m: Msg) {
    forall k :: Open(s, memory, k) ==> s.copies[k].msg != m
  }

  /** A mail that was taken has no open copy, and any other has one at most. */
  ghost predicate Orderly(s: Server, memory: set<Slot>, taken: seq<Msg>) {
    && (forall k :: Open(s, memory, k) ==> s.copies[k].msg !in taken)
    && (forall j, k :: Open(s, memory, j) && Open(s, memory, k) && j != k ==> s.copies[j].msg != s.copies[k].msg)
  }

  /** When nothing moves into INBOX, the flags there suffice. */
  function Memory(c: Config, s: State): set<Slot> {
    if c.done == INBOX then s.uids else {}
  }

  /** Done is another folder, or no remembered UID was ever trimmed. */
  predicate Remembers(c: Config, s: State) {
    c.done != INBOX || !s.forgot
  }

  ghost predicate Distinct(mails: seq<Msg>) {
    forall i, j :: 0 <= i < j < |mails| ==> mails[i] != mails[j]
  }

  ghost predicate TakenOnce(c: Config, s: State) {
    Remembers(c, s) ==> Orderly(s.server, Memory(c, s), s.taken) && Distinct(s.taken)
  }

  /** What is in Working was fetched, and can be found by its Message-ID. */
  ghost predicate WorkingFindable(c: Config, s: Server) {
    c.HasWorking() ==>
      forall k :: k in s.copies && s.copies[k].folder == c.working ==>
        s.copies[k].seen && c.idOf(s.copies[k].msg) != ""
  }

  /** UIDs are only forgotten when the server has given out more of them than the cap. */
  ghost predicate ForgetsLate(c: Config, s: State) {
    && (forall k :: k in s.uids ==> k < s.server.next)
    && (s.forgot ==> s.server.next > c.seenMax >= 2)
  }

  ghost predicate TakenArrived(s: State) {
    forall m :: m in s.taken ==> m in s.arrived
  }

  ghost predicate Inv(c: Config, s: State) {
    NothingLost(s.server, s.arrived) && WorkingFindable(c, s.server) && TakenOnce(c, s) && TakenArrived(s)
    && ForgetsLate(c, s)
  }

  // ---- flags, memory and takes ---------------------------------------------------------

  lemma {:induction false} Bounded(s: set<Slot>, n: nat)
    requires forall k :: k in s ==> k < n
    ensures |s| <= n
  {
    if n == 0 {
      assert s == {};
    } else {
      Bounded(s - {n - 1}, n - 1);
      assert |s - {n - 1}| >= |s| - 1;
    }
  }

  /** Remembering a UID closes its copy, unless another one is forgotten for it. */
  lemma RememberInv(c: Config, s: State, slot: Slot)
    requires Inv(c, s) && slot < s.server.next
    ensures Inv(c, Remembered(c, s, slot))
    ensures Remembers(c, Remembered(c, s, slot)) && c.done == INBOX ==> slot in Memory(c, Remembered(c, s, slot))
  {
    var r := Remembered(c, s, slot);
    var all := s.uids + {slot};
    assert Trim(c.seenMax, all) <= all;
    Bounded(all, s.server.next);
    if !r.forgot { assert r.uids == all; }
    hide Trim, NothingLost, WorkingFindable;
    assert forall k :: Open(r.server, Memory(c, r), k) && Remembers(c, r) ==> Open(s.server, Memory(c, s), k);
  }

  lemma SeenKeepsLive(s: Server, slot: Slot, m: Msg)
    requires Live(s, m)
    ensures Live(FlagSeen(s, INBOX, slot), m)
  {
    var k :| k in s.copies && s.copies[k].msg == m && !s.copies[k].deleted;
    var r := FlagSeen(s, INBOX, slot);
    assert k in r.copies && r.copies[k].msg == m && !r.copies[k].deleted;
  }

  lemma SeenKeepsAll(s: Server, slot: Slot, arrived: set<Msg>)
    requires NothingLost(s, arrived)
    ensures NothingLost(FlagSeen(s, INBOX, slot), arrived)
  {
    forall m | m in arrived ensures Live(FlagSeen(s, INBOX, slot), m) { SeenKeepsLive(s, slot, m); }
    hide Live;
  }

  lemma SeenOrderly(s: Server, slot: Slot, memory: set<Slot>, taken: seq<Msg>)
    requires Orderly(s, memory, taken)
    ensures Orderly(FlagSeen(s, INBOX, slot), memory, taken)
  {
    var r := FlagSeen(s, INBOX, slot);
    forall k | Open(r, memory, k) ensures Open(s, memory, k) && r.copies[k] == s.copies[k] {}
    hide FlagSeen, Open;
  }

  lemma SeenFindable(c: Config, s: Server, slot: Slot)
    requires WorkingFindable(c, s)
    ensures WorkingFindable(c, FlagSeen(s, INBOX, slot))
  {
  }

  lemma FlagInv(c: Config, s: State, slot: Slot, o: Outcome)
    requires Inv(c, s)
    ensures Inv(c, Flagging(s, slot, o))
  {
    SeenKeepsAll(s.server, slot, s.arrived);
    SeenFindable(c, s.server, slot);
    assert FlagSeen(s.server, INBOX, slot).next == s.server.next;
    hide FlagSeen, NothingLost, WorkingFindable, Orderly, Distinct;
    if Remembers(c, s) { SeenOrderly(s.server, slot, Memory(c, s), s.taken); }
  }

  /** A mail can be taken when it was not taken before and all its copies are closed by now. */
  lemma TakeInv(c: Config, s: State, m: Msg)
    requires Inv(c, s) && m in s.arrived
    requires Remembers(c, s) ==> m !in s.taken && Closed(s.server, Memory(c, s), m)
    ensures Inv(c, s.(taken := s.taken + [m]))
  {
    hide NothingLost, WorkingFindable, Open;
  }

  // ---- moves ---------------------------------------------------------------------------

  /** Into INBOX only a copy goes that is seen, or one of a mail that is closed and not taken;
      into Working only one that was fetched and can be found again. */
  ghost predicate MayMove(c: Config, s: State, folder: Folder, slot: Slot, dst: Folder) {
    Holds(s.server, folder, slot) ==>
      var copy := s.server.copies[slot];
      && (dst == INBOX && Remembers(c, s) ==>
            copy.seen || (copy.msg !in s.taken && Closed(s.server, Memory(c, s), copy.msg)))
      && (dst == c.working && c.HasWorking() ==> copy.seen && c.idOf(copy.msg) != "")
  }

  lemma MoveKeepsAll(s: Server, folder: Folder, slot: Slot, dst: Folder, o: MoveOutcomes, arrived: set<Msg>)
    requires NothingLost(s, arrived)
    ensures NothingLost(MoveResult(s, folder, slot, dst, o).0, arrived)
  {
    var r := MoveResult(s, folder, slot, dst, o).0;
    MoveKeepsWf(s, folder, slot, dst, o);
    forall m | m in arrived ensures Live(r, m) { MoveKeepsLive(s, folder, slot, dst, o, m); }
    hide MoveResult, Live, Wf;
    forall k | k in r.copies ensures r.copies[k].msg in arrived { MoveFills(s, folder, slot, dst, o, k); }
  }

  /** An open copy was open before, or it is the moved one, and then its mail was closed. */
  lemma MoveOpens(c: Config, s: State, folder: Folder, slot: Slot, dst: Folder, o: MoveOutcomes, k: Slot)
    requires Wf(s.server) && Remembers(c, s) && MayMove(c, s, folder, slot, dst)
    requires Open(Moved(s, folder, slot, dst, o).server, Memory(c, s), k)
    ensures var m := Moved(s, folder, slot, dst, o).server.copies[k].msg;
            || (Open(s.server, Memory(c, s), k) && s.server.copies[k].msg == m)
            || (k == s.server.next && m !in s.taken && Closed(s.server, Memory(c, s), m))
  {
    MoveFills(s.server, folder, slot, dst, o, k);
    hide MoveResult, Wf, Closed;
  }

  lemma MoveOrderly(c: Config, s: State, folder: Folder, slot: Slot, dst: Folder, o: MoveOutcomes)
    requires Wf(s.server) && Remembers(c, s) && MayMove(c, s, folder, slot, dst)
    requires Orderly(s.server, Memory(c, s), s.taken)
    ensures Orderly(Moved(s, folder, slot, dst, o).server, Memory(c, s), s.taken)
  {
    var r := Moved(s, folder, slot, dst, o).server;
    var memory := Memory(c, s);
    forall k | Open(r, memory, k) ensures r.copies[k].msg !in s.taken { MoveOpens(c, s, folder, slot, dst, o, k); }
    forall j, k | Open(r, memory, j) && Open(r, memory, k) && j != k ensures r.copies[j].msg != r.copies[k].msg {
      MoveOpens(c, s, folder, slot, dst, o, j);
      MoveOpens(c, s, folder, slot, dst, o, k);
      hide Open, Moved, MoveResult, MayMove, Wf, Memory;
    }
  }

  lemma MoveKeepsFindable(c: Config, s: State, folder: Folder, slot: Slot, dst: Folder, o: MoveOutcomes)
    requires Wf(s.server) && WorkingFindable(c, s.server) && MayMove(c, s, folder, slot, dst)
    ensures WorkingFindable(c, Moved(s, folder, slot, dst, o).server)
  {
    var r := Moved(s, folder, slot, dst, o).server;
    forall k | k in r.copies && r.copies[k].folder == c.working && c.HasWorking()
      ensures r.copies[k].seen && c.idOf(r.copies[k].msg) != ""
    {
      MoveFills(s.server, folder, slot, dst, o, k);
      hide MoveResult, Wf, Closed, Memory;
    }
  }

  /** A move that is admitted keeps the invariant, whatever the server answers. */
  lemma MoveInv(c: Config, s: State, folder: Folder, slot: Slot, dst: Folder, o: MoveOutcomes)
    requires Inv(c, s) && MayMove(c, s, folder, slot, dst)
    ensures Inv(c, Moved(s, folder, slot, dst, o))
  {
    assert Wf(s.server);
    MoveKeepsWf(s.server, folder, slot, dst, o);
    hide MoveResult, MayMove, NothingLost, Orderly, WorkingFindable, Wf, Distinct;
    MoveKeepsAll(s.server, folder, slot, dst, o, s.arrived);
    MoveKeepsFindable(c, s, folder, slot, dst, o);
    if Remembers(c, s) { MoveOrderly(c, s, folder, slot, dst, o); }
  }

  // ---- one UID -------------------------------------------------------------------------

  /** A UID of the search that still waits for its turn is as it was when the poll began, in
      state `p`: in INBOX and unseen, or gone. */
  ghost predicate Waiting(p: Server, s: Server, k: Slot) {
    && k < s.next
    && (k in s.copies ==>
          k in p.copies && s.copies[k] == p.copies[k] && s.copies[k].folder == INBOX && !s.copies[k].seen)
  }

  /** The waiting copy is the only open one of a mail that was not taken. */
  lemma WaitingIsFresh(c: Config, s: State, p: Server, slot: Slot)
    requires Inv(c, s) && Waiting(p, s.server, slot) && slot !in s.uids && Remembers(c, s)
    ensures Holds(s.server, INBOX, slot) ==> s.server.copies[slot].msg !in s.taken
    ensures Holds(s.server, INBOX, slot) ==> Closed(s.server, Memory(c, s) + {slot}, s.server.copies[slot].msg)
  {
    hide NothingLost, WorkingFindable, Distinct;
    if Holds(s.server, INBOX, slot) {
      assert Open(s.server, Memory(c, s), slot);
      assert forall k :: Open(s.server, Memory(c, s) + {slot}, k) ==> Open(s.server, Memory(c, s), k) && k != slot;
    }
  }

  /** Flagged as seen or remembered, it is closed. */
  lemma ClosesBy(c: Config, s: State, t: State, p: Server, slot: Slot, o: Outcome)
    requires Inv(c, s) && Waiting(p, s.server, slot) && slot !in s.uids
    requires t == Flagging(Remembered(c, s, slot), slot, o) || t == Remembered(c, Flagging(s, slot, o), slot)
    requires c.done == INBOX || o.Applied()
    ensures Remembers(c, t) && Holds(t.server, INBOX, slot) ==>
              t.server.copies[slot].msg !in t.taken && Closed(t.server, Memory(c, t), t.server.copies[slot].msg)
  {
    if Remembers(c, t) && Holds(t.server, INBOX, slot) {
      RememberInv(c, s, slot);
      FlagInv(c, s, slot, o);
      RememberInv(c, Flagging(s, slot, o), slot);
      var m := s.server.copies[slot].msg;
      assert Remembers(c, s);
      WaitingIsFresh(c, s, p, slot);
      hide Inv, Waiting;
      forall k | Open(t.server, Memory(c, t), k) ensures t.server.copies[k].msg != m {
        assert k != slot;
        RememberedGrows(c, s, slot);
        RememberedGrows(c, Flagging(s, slot, o), slot);
        assert Open(s.server, Memory(c, s) + {slot}, k);
      }
    }
  }

  lemma RememberedGrows(c: Config, s: State, slot: Slot)
    ensures Remembers(c, Remembered(c, s, slot)) ==> Memory(c, s) <= Memory(c, Remembered(c, s, slot))
    ensures Remembers(c, Remembered(c, s, slot)) ==> Remembers(c, s)
  {
  }

  lemma CopiesArrived(c: Config, s: State, folder: Folder, slot: Slot)
    requires Inv(c, s)
    ensures Wf(s.server) && (Holds(s.server, folder, slot) ==> s.server.copies[slot].msg in s.arrived)
  {
  }

  lemma ConsumedInv(c: Config, s: State, p: Server, slot: Slot, v: Visit)
    requires Inv(c, s) && Waiting(p, s.server, slot) && slot !in s.uids
    ensures Inv(c, Consumed(c, s, slot, v).state)
  {
    var t := Flagging(Remembered(c, s, slot), slot, v.flag);
    assert slot < s.server.next;
    if c.done == INBOX { ClosesBy(c, s, t, p, slot, v.flag); }
    assert MayMove(c, t, INBOX, slot, c.done) by { hide Inv, Remembered, Flagging, Waiting, Closed; }
    hide Inv, MayMove, Flagging, Remembered, Waiting, Moved;
    RememberInv(c, s, slot);
    FlagInv(c, Remembered(c, s, slot), slot, v.flag);
    MoveInv(c, t, INBOX, slot, c.done, v.move);
  }

  lemma FlagHolds(c: Config, s: State, slot: Slot, o: Outcome)
    requires Holds(s.server, INBOX, slot)
    ensures var t := Remembered(c, Flagging(s, slot, o), slot);
            && Holds(t.server, INBOX, slot) && t.server.copies[slot].msg == s.server.copies[slot].msg
            && t.arrived == s.arrived && t.taken == s.taken && (o.Applied() ==> t.server.copies[slot].seen)
            && t.server.next == s.server.next && t.dispatched == s.dispatched
  {
  }

  lemma BodyInv(c: Config, s: State, p: Server, slot: Slot, v: Visit)
    requires Inv(c, s) && Waiting(p, s.server, slot) && slot !in s.uids && Holds(s.server, INBOX, slot)
    ensures Inv(c, BodyFetched(c, s, slot, v).state)
  {
    var t := Flagging(s, slot, v.flag);
    var u := Remembered(c, t, slot);
    var m := s.server.copies[slot].msg;
    CopiesArrived(c, s, INBOX, slot);
    FlagHolds(c, s, slot, v.flag);
    if v.flag.Ok? { ClosesBy(c, s, u, p, slot, v.flag); }
    assert t.server.next == s.server.next && slot < s.server.next;
    FlagInv(c, s, slot, v.flag);
    var taking := u.(taken := u.taken + [m]);
    assert v.flag.Ok? && Parks(c, m) ==> MayMove(c, taking, INBOX, slot, c.working) by {
      hide Inv, Flagging, Remembered, Waiting, Closed;
    }
    hide Inv, Flagging, Remembered, Waiting, Moved, Closed, MayMove;
    RememberInv(c, t, slot);
    if v.flag.Ok? {
      TakeInv(c, u, m);
      if Parks(c, m) { MoveInv(c, taking, INBOX, slot, c.working, v.move); }
    }
  }

  lemma VisitInv(c: Config, s: State, p: Server, slot: Slot, v: Visit)
    requires Inv(c, s) && Waiting(p, s.server, slot)
    ensures Inv(c, Visited(c, s, slot, v).state)
  {
    hide Inv, Waiting, Consumed, BodyFetched;
    if slot !in s.uids {
      ConsumedInv(c, s, p, slot, v);
      if Holds(s.server, INBOX, slot) { BodyInv(c, s, p, slot, v); }
    }
  }

  function Msgs(got: seq<Fetched>): seq<Msg> {
    seq(|got|, i requires 0 <= i < |got| => got[i].msg)
  }

  /** A record carries the mail's own Message-ID, and names INBOX or Working. */
  ghost predicate WellFetched(c: Config, f: Fetched) {
    f.messageId == c.idOf(f.msg) && (f.source == INBOX || (f.source == c.working && c.done != "" && c.working != ""))
  }

  ghost predicate AllWell(c: Config, got: seq<Fetched>) {
    forall i :: 0 <= i < |got| ==> WellFetched(c, got[i])
  }

  /** What a visit takes is what it returns, and nothing is dispatched or comes in. */
  lemma VisitTakes(c: Config, s: State, slot: Slot, v: Visit)
    ensures var r := Visited(c, s, slot, v);
            && r.state.taken == s.taken + Msgs(r.got) && AllWell(c, r.got) && (s.forgot ==> r.state.forgot)
            && r.state.arrived == s.arrived && r.state.dispatched == s.dispatched
  {
    hide FlagSeen, MoveResult, Trim;
  }

  /** The server is flagged, or flagged and asked to move the mail, or left alone. */
  lemma VisitServer(c: Config, s: State, slot: Slot, v: Visit)
    ensures var (g, r) := (Flagging(s, slot, v.flag).server, Visited(c, s, slot, v).state.server);
            || r == s.server || r == g
            || r == MoveResult(g, INBOX, slot, c.done, v.move).0 || r == MoveResult(g, INBOX, slot, c.working, v.move).0
  {
    hide FlagSeen, MoveResult, Trim;
  }

  lemma MoveWaits(p: Server, s: Server, slot: Slot, dst: Folder, o: MoveOutcomes, k: Slot)
    requires Wf(s) && Waiting(p, s, k) && k != slot
    ensures Waiting(p, MoveResult(s, INBOX, slot, dst, o).0, k)
  {
    var r := MoveResult(s, INBOX, slot, dst, o).0;
    MoveKeepsWf(s, INBOX, slot, dst, o);
    if k in r.copies {
      MoveFills(s, INBOX, slot, dst, o, k);
      MoveLeavesOthers(s, INBOX, slot, dst, o, k);
    }
    hide MoveResult;
  }

  /** The other UIDs go on waiting. */
  lemma VisitWaits(c: Config, s: State, p: Server, slot: Slot, v: Visit, k: Slot)
    requires Wf(s.server) && Waiting(p, s.server, k) && k != slot
    ensures Waiting(p, Visited(c, s, slot, v).state.server, k)
  {
    var g := Flagging(s, slot, v.flag).server;
    assert Wf(g) && Waiting(p, g, k);
    VisitServer(c, s, slot, v);
    hide Waiting, Visited, MoveResult, Wf, Flagging;
    MoveWaits(p, g, slot, c.done, v.move, k);
    MoveWaits(p, g, slot, c.working, v.move, k);
  }

  // ---- one poll ------------------------------------------------------------------------

  ghost predicate AllWaiting(p: Server, s: Server, todo: seq<Slot>) {
    && (forall i :: 0 <= i < |todo| ==> Waiting(p, s, todo[i]))
    && (forall i, j :: 0 <= i < j < |todo| ==> todo[i] != todo[j])
  }

  lemma AllWait(c: Config, s: State, p: Server, todo: seq<Slot>, v: Visit)
    requires Wf(s.server) && todo != [] && AllWaiting(p, s.server, todo)
    ensures Waiting(p, s.server, todo[0]) && AllWaiting(p, Visited(c, s, todo[0], v).state.server, todo[1..])
  {
    var r := Visited(c, s, todo[0], v).state.server;
    hide Visited, Waiting;
    forall i | 0 <= i < |todo| - 1 ensures Waiting(p, r, todo[1..][i]) { VisitWaits(c, s, p, todo[0], v, todo[i + 1]); }
  }

  lemma MsgsJoin(before: seq<Msg>, one: seq<Fetched>, rest: seq<Fetched>)
    ensures before + Msgs(one) + Msgs(rest) == before + Msgs(one + rest)
  {
  }

  /** Every visit of a poll keeps the invariant, and what the poll returns is exactly what it took. */
  lemma {:induction false} VisitAllInv(c: Config, s: State, p: Server, todo: seq<Slot>, w: World)
    requires Inv(c, s) && AllWaiting(p, s.server, todo)
    ensures var r := VisitedAll(c, s, todo, w);
            && Inv(c, r.state) && r.state.taken == s.taken + Msgs(r.got) && AllWell(c, r.got)
            && (s.forgot ==> r.state.forgot) && r.state.arrived == s.arrived && r.state.dispatched == s.dispatched
    decreases |todo|
  {
    if todo != [] {
      var v := w.visit(todo[0]);
      CopiesArrived(c, s, INBOX, todo[0]);
      AllWait(c, s, p, todo, v);
      hide Inv, Visited, AllWaiting, Waiting, Msgs, WellFetched, Wf;
      VisitInv(c, s, p, todo[0], v);
      VisitTakes(c, s, todo[0], v);
      var one := Visited(c, s, todo[0], v);
      if !one.failed {
        VisitAllInv(c, one.state, p, todo[1..], w);
        MsgsJoin(s.taken, one.got, VisitedAll(c, one.state, todo[1..], w).got);
      }
    }
  }

  lemma UnseenWait(s: Server, list: Listing)
    requires Wf(s) && Enumerates(list)
    ensures AllWaiting(s, s, list(UnseenUids(s)))
  {
    var todo := list(UnseenUids(s));
    assert ListsOnce(UnseenUids(s), todo);
    assert forall i :: 0 <= i < |todo| ==> todo[i] in UnseenUids(s);
  }

  lemma FetchInv(c: Config, s: State, w: World)
    requires Inv(c, s) && w.Lists()
    ensures var r := FetchedNew(c, s, w);
            && Inv(c, r.state) && r.state.taken == s.taken + Msgs(r.got) && AllWell(c, r.got)
            && (s.forgot ==> r.state.forgot) && r.state.arrived == s.arrived && r.state.dispatched == s.dispatched
  {
    CopiesArrived(c, s, INBOX, 0);
    UnseenWait(s.server, w.list);
    MsgsOfNone(s.taken, [], 0);
    hide Inv, Msgs, UnseenUids, Visited, AllWaiting, Enumerates, Wf;
    if w.search.Ok? { VisitAllInv(c, s, s.server, w.list(UnseenUids(s.server)), w); }
  }

  /** What is finalized comes from INBOX, with Done elsewhere, or from Working, where it was seen. */
  lemma FinalizeMay(c: Config, s: State, f: Fetched, slot: Slot)
    requires Inv(c, s) && WellFetched(c, f) && c.done != f.source
    ensures MayMove(c, s, f.source, slot, c.done)
  {
    hide NothingLost, TakenOnce, Closed;
  }

  lemma {:induction false} MoveAllInv(c: Config, s: State, f: Fetched, todo: seq<Slot>, move: Slot -> MoveOutcomes)
    requires Inv(c, s) && WellFetched(c, f) && c.done != f.source
    ensures var r := MovedAll(s, f.source, todo, c.done, move);
            && Inv(c, r) && r.forgot == s.forgot && r.taken == s.taken && r.arrived == s.arrived
            && r.dispatched == s.dispatched
    decreases |todo|
  {
    hide Inv, WellFetched, MoveResult;
    if todo != [] {
      FinalizeMay(c, s, f, todo[0]);
      MoveInv(c, s, f.source, todo[0], c.done, move(todo[0]));
      MoveAllInv(c, Moved(s, f.source, todo[0], c.done, move(todo[0])), f, todo[1..], move);
    }
  }

  lemma DispatchInv(c: Config, s: State, f: Fetched, h: Handling)
    requires Inv(c, s) && WellFetched(c, f)
    ensures var r := Dispatched(c, s, f, h);
            && Inv(c, r) && r.forgot == s.forgot && r.taken == s.taken && r.arrived == s.arrived
            && r.dispatched == s.dispatched + [f.msg]
  {
    var t := s.(dispatched := s.dispatched + [f.msg]);
    assert Inv(c, t);
    hide Inv, WellFetched;
    if c.done != f.source { MoveAllInv(c, t, f, h.list(FoundUids(c, t.server, f.source, f.messageId)), h.move); }
  }

  lemma MsgsOfNone(before: seq<Msg>, got: seq<Fetched>, i: nat)
    requires i <= |got|
    ensures before + Msgs(got[i..i]) == before && before + Msgs([]) == before
  {
  }

  lemma OneMore(before: seq<Msg>, got: seq<Fetched>, i: nat, n: nat)
    requires i < n <= |got|
    ensures before + [got[i].msg] + Msgs(got[i + 1..n]) == before + Msgs(got[i..n])
    ensures before + [got[i].msg] == before + Msgs(got[i..i + 1])
  {
  }

  /** What is dispatched is what the loop gets to, in order. */
  lemma {:induction false} DispatchAllInv(c: Config, s: State, got: seq<Fetched>, i: nat, w: World)
    requires Inv(c, s) && AllWell(c, got) && i <= |got|
    ensures var r := DispatchedFrom(c, s, got, i, w);
            && Inv(c, r) && r.forgot == s.forgot && r.taken == s.taken && r.arrived == s.arrived
            && r.dispatched == s.dispatched + Msgs(got[i..Reached(|got|, i, w)])
    decreases |got| - i
  {
    hide Inv, WellFetched, Dispatched, Msgs;
    if i == |got| {
      MsgsOfNone(s.dispatched, got, i);
    } else {
      DispatchInv(c, s, got[i], w.handle(i));
      OneMore(s.dispatched, got, i, Reached(|got|, i, w));
      DispatchAllInv(c, Dispatched(c, s, got[i], w.handle(i)), got, i + 1, w);
    }
  }
}

/** Polls during which the server does what it is asked: where every waiting mail ends up. */
module MailDelivery {
  import opened MailServer
  import opened MailPoll
  import opened MailLifecycle
  import opened MailRuns

  // ---- reliable polls ------------------------------------------------------------------

  /** Commands succeed as far as the server knows them; `plain` admits the plain EXPUNGE. */
  predicate Succeeds(plain: bool, o: MoveOutcomes) {
    Willing(o) && (NeedsPlainExpunge(o) ==> plain)
  }

  predicate VisitSucceeds(plain: bool, v: Visit) {
    v.header.Ok? && v.flag.Ok? && Succeeds(plain, v.move)
  }

  ghost predicate HandlingSucceeds(plain: bool, h: Handling) {
    h.search.Ok? && Enumerates(h.list) && forall k :: Succeeds(plain, h.move(k))
  }

  /** The gate, the parser and the handler still do as they like. */
  ghost predicate Reliable(plain: bool, w: World) {
    && w.search.Ok? && w.Lists()
    && (forall k :: VisitSucceeds(plain, w.visit(k)))
    && (forall i :: HandlingSucceeds(plain, w.handle(i)))
  }

  /** No plain EXPUNGE takes this copy. */
  ghost predicate Spared(plain: bool, s: Server, k: Slot) {
    k in s.copies && (plain ==> !s.copies[k].deleted)
  }

  /** A seen copy of the mail is there, and no plain EXPUNGE takes it. */
  ghost predicate Held(plain: bool, s: Server, folder: Folder, m: Msg) {
    exists k :: Spared(plain, s, k) && s.copies[k].folder == folder && s.copies[k].msg == m && s.copies[k].seen
  }

  ghost predicate InFolder(s: Server, folder: Folder, m: Msg) {
    exists k :: k in s.copies && s.copies[k].folder == folder && s.copies[k].msg == m
  }

  lemma SparesOthers(
    plain: bool, s: Server, folder: Folder, slot: Slot, dst: Folder, o: MoveOutcomes, k: Slot)
    requires Wf(s) && Succeeds(plain, o) && Spared(plain, s, k) && !(k == slot && Holds(s, folder, slot))
    ensures var r := MoveResult(s, folder, slot, dst, o).0; k in r.copies && r.copies[k] == s.copies[k]
  {
    if Holds(s, folder, slot) {
      MoveSucceeds(s, folder, slot, dst, o);
      hide MoveResult, Wf;
    } else if !s.copies[k].deleted {
      MoveKeepsPlace(s, folder, slot, dst, o, k);
    } else {
      NothingToMove(s, folder, slot, dst, o);
    }
  }

  lemma NothingToMove(s: Server, folder: Folder, slot: Slot, dst: Folder, o: MoveOutcomes)
    requires !Holds(s, folder, slot) && Willing(o) && !NeedsPlainExpunge(o)
    ensures MoveResult(s, folder, slot, dst, o).0 == s
  {
  }

  /** The moved mail is in the destination, with its flags. */
  lemma MovesIt(plain: bool, s: Server, folder: Folder, slot: Slot, dst: Folder, o: MoveOutcomes)
    requires Wf(s) && Succeeds(plain, o) && Holds(s, folder, slot)
    ensures var (r, moved) := MoveResult(s, folder, slot, dst, o);
            && moved && slot !in r.copies
            && (s.copies[slot].seen && Spared(plain, s, slot) ==> Held(plain, r, dst, s.copies[slot].msg))
  {
    MoveSucceeds(s, folder, slot, dst, o);
    var r := MoveResult(s, folder, slot, dst, o).0;
    hide MoveResult, Wf;
    if s.copies[slot].seen && Spared(plain, s, slot) {
      assert Spared(plain, r, s.next) && r.copies[s.next].msg == s.copies[slot].msg;
    }
  }

  // ---- fetching ------------------------------------------------------------------------

  /** What was seen and is spared stays where it is. */
  ghost predicate Keeps(plain: bool, s: Server, r: Server) {
    forall k :: Spared(plain, s, k) && s.copies[k].seen ==> k in r.copies && r.copies[k] == s.copies[k]
  }

  lemma KeepsHeld(plain: bool, s: Server, r: Server, folder: Folder, m: Msg)
    requires Keeps(plain, s, r) && Held(plain, s, folder, m)
    ensures Held(plain, r, folder, m)
  {
    var k :| Spared(plain, s, k) && s.copies[k].folder == folder && s.copies[k].msg == m && s.copies[k].seen;
    assert Spared(plain, r, k);
  }

  /** A visit touches no other copy that is spared. */
  lemma VisitSpares(plain: bool, c: Config, s: State, slot: Slot, v: Visit, k: Slot)
    requires Wf(s.server) && VisitSucceeds(plain, v) && Spared(plain, s.server, k) && k != slot
    ensures var r := Visited(c, s, slot, v).state.server; k in r.copies && r.copies[k] == s.server.copies[k]
  {
    var g := Flagging(s, slot, v.flag).server;
    assert Wf(g) && Spared(plain, g, k) && g.copies[k] == s.server.copies[k];
    VisitServer(c, s, slot, v);
    hide Visited, MoveResult, Wf, Flagging, Spared, Succeeds;
    SparesOthers(plain, g, INBOX, slot, c.done, v.move, k);
    SparesOthers(plain, g, INBOX, slot, c.working, v.move, k);
  }

  lemma VisitKeeps(plain: bool, c: Config, s: State, p: Server, slot: Slot, v: Visit)
    requires Wf(s.server) && VisitSucceeds(plain, v) && Waiting(p, s.server, slot)
    ensures Keeps(plain, s.server, Visited(c, s, slot, v).state.server)
  {
    var r := Visited(c, s, slot, v).state.server;
    hide Visited, VisitSucceeds, Wf;
    forall k | Spared(plain, s.server, k) && s.server.copies[k].seen
      ensures k in r.copies && r.copies[k] == s.server.copies[k]
    {
      VisitSpares(plain, c, s, slot, v, k);
    }
  }

  ghost predicate Fetches(got: seq<Fetched>, slot: Slot, m: Msg) {
    exists i :: 0 <= i < |got| && got[i].uid == slot && got[i].msg == m
  }

  /** An accepted mail that parses is fetched, one that does not parse stays in INBOX, and a
      rejected one goes to Done. */
  ghost predicate Served(plain: bool, c: Config, s: Server, got: seq<Fetched>, slot: Slot, m: Msg, v: Visit) {
    if v.accepted && v.parsed then Fetches(got, slot, m)
    else Held(plain, s, if v.accepted || c.done == "" then INBOX else c.done, m)
  }

  /** Every fetched mail is where its record says. */
  ghost predicate Located(plain: bool, p: Server, s: Server, got: seq<Fetched>) {
    forall i :: 0 <= i < |got| && Spared(plain, p, got[i].uid) ==> Held(plain, s, got[i].source, got[i].msg)
  }

  lemma SeenIsHeld(plain: bool, s: State, slot: Slot)
    requires Holds(s.server, INBOX, slot) && Spared(plain, s.server, slot)
    ensures var g := Flagging(s, slot, Ok).server;
            && Holds(g, INBOX, slot) && Spared(plain, g, slot) && g.copies[slot].seen
            && g.copies[slot].msg == s.server.copies[slot].msg && Held(plain, g, INBOX, s.server.copies[slot].msg)
            && (Wf(s.server) ==> Wf(g))
  {
  }

  lemma ConsumedServes(plain: bool, c: Config, s: State, slot: Slot, v: Visit)
    requires Wf(s.server) && VisitSucceeds(plain, v) && Holds(s.server, INBOX, slot) && Spared(plain, s.server, slot)
    ensures Held(plain, Consumed(c, s, slot, v).state.server, if c.done == "" then INBOX else c.done,
                 s.server.copies[slot].msg)
    ensures !Consumed(c, s, slot, v).failed
  {
    hide Trim, Flagging, MoveResult, Spared, Held, Succeeds, Wf, Holds;
    var t := Remembered(c, s, slot);
    SeenIsHeld(plain, t, slot);
    MovesIt(plain, Flagging(t, slot, Ok).server, INBOX, slot, c.done, v.move);
  }

  lemma BodyServes(plain: bool, c: Config, s: State, slot: Slot, v: Visit)
    requires Wf(s.server) && VisitSucceeds(plain, v) && Holds(s.server, INBOX, slot) && Spared(plain, s.server, slot)
    ensures var (r, m) := (BodyFetched(c, s, slot, v), s.server.copies[slot].msg);
            && !r.failed && (!v.parsed ==> Held(plain, r.state.server, INBOX, m))
            && (v.parsed ==> |r.got| == 1 && r.got[0].uid == slot && r.got[0].msg == m
                             && Held(plain, r.state.server, r.got[0].source, m))
  {
    hide Trim, Flagging, MoveResult, Spared, Held, Succeeds, Wf, Holds;
    SeenIsHeld(plain, s, slot);
    MovesIt(plain, Flagging(s, slot, Ok).server, INBOX, slot, c.working, v.move);
  }

  lemma VisitServes(plain: bool, c: Config, s: State, p: Server, slot: Slot, v: Visit)
    requires Wf(s.server) && VisitSucceeds(plain, v) && Waiting(p, s.server, slot)
    requires Spared(plain, p, slot) ==> slot in s.server.copies
    ensures var r := Visited(c, s, slot, v);
            && !r.failed && r.state.uids <= s.uids + {slot} && Located(plain, p, r.state.server, r.got)
            && (slot !in s.uids && Spared(plain, p, slot) ==>
                  Served(plain, c, r.state.server, r.got, slot, p.copies[slot].msg, v))
  {
    assert slot in s.server.copies ==> s.server.copies[slot] == p.copies[slot];
    VisitRemembers(plain, c, s, slot, v);
    hide Trim, MoveResult, Held, Succeeds, Wf, Flagging, Remembered, Consumed, BodyFetched, Waiting;
    if Holds(s.server, INBOX, slot) && Spared(plain, s.server, slot) {
      ConsumedServes(plain, c, s, slot, v);
      BodyServes(plain, c, s, slot, v);
    }
  }

  lemma VisitRemembers(plain: bool, c: Config, s: State, slot: Slot, v: Visit)
    requires VisitSucceeds(plain, v)
    ensures var r := Visited(c, s, slot, v);
            !r.failed && r.state.uids <= s.uids + {slot} && forall i :: 0 <= i < |r.got| ==> r.got[i].uid == slot
  {
    hide MoveResult, FlagSeen, Succeeds;
  }

  // ---- all of them ---------------------------------------------------------------------

  /** The spared ones are still there. */
  ghost predicate Lasting(plain: bool, p: Server, s: Server, todo: seq<Slot>) {
    forall i :: 0 <= i < |todo| && Spared(plain, p, todo[i]) ==> todo[i] in s.copies
  }

  /** Each that was not remembered when the loop came to it was served. */
  ghost predicate AllServed(plain: bool, c: Config, p: Server, uids: set<Slot>, r: Step, todo: seq<Slot>, w: World) {
    forall i :: 0 <= i < |todo| && todo[i] !in uids && Spared(plain, p, todo[i]) ==>
      Served(plain, c, r.state.server, r.got, todo[i], p.copies[todo[i]].msg, w.visit(todo[i]))
  }

  lemma StillLasting(plain: bool, c: Config, s: State, p: Server, todo: seq<Slot>, v: Visit)
    requires Wf(s.server) && VisitSucceeds(plain, v) && todo != []
    requires AllWaiting(p, s.server, todo) && Lasting(plain, p, s.server, todo)
    ensures Lasting(plain, p, Visited(c, s, todo[0], v).state.server, todo[1..])
  {
    hide Visited, Wf, VisitSucceeds;
    var rest := todo[1..];
    forall i | 0 <= i < |rest| && Spared(plain, p, rest[i])
      ensures rest[i] in Visited(c, s, todo[0], v).state.server.copies
    {
      assert rest[i] == todo[i + 1] && Waiting(p, s.server, todo[i + 1]);
      VisitSpares(plain, c, s, todo[0], v, rest[i]);
    }
  }

  lemma LocatedJoins(plain: bool, p: Server, s: Server, r: Server, one: seq<Fetched>, rest: seq<Fetched>)
    requires Located(plain, p, s, one) && Keeps(plain, s, r) && Located(plain, p, r, rest)
    ensures Located(plain, p, r, one + rest)
  {
    hide Held, Spared, Keeps;
    forall i | 0 <= i < |one| && Spared(plain, p, one[i].uid) ensures Held(plain, r, one[i].source, one[i].msg) {
      KeepsHeld(plain, s, r, one[i].source, one[i].msg);
    }
  }

  lemma ServedStays(
    plain: bool, c: Config, s: Server, r: Server, one: seq<Fetched>, rest: seq<Fetched>, slot: Slot, m: Msg, v: Visit)
    requires Served(plain, c, s, one, slot, m, v) && Keeps(plain, s, r)
    ensures Served(plain, c, r, one + rest, slot, m, v)
  {
    hide Held, Keeps;
    if v.accepted && v.parsed {
      var i :| 0 <= i < |one| && one[i].uid == slot && one[i].msg == m;
      assert (one + rest)[i] == one[i];
    } else {
      KeepsHeld(plain, s, r, if v.accepted || c.done == "" then INBOX else c.done, m);
    }
  }

  lemma ServedBehind(
    plain: bool, c: Config, r: Server, one: seq<Fetched>, rest: seq<Fetched>, slot: Slot, m: Msg, v: Visit)
    requires Served(plain, c, r, rest, slot, m, v)
    ensures Served(plain, c, r, one + rest, slot, m, v)
  {
    hide Held;
    if v.accepted && v.parsed {
      var i :| 0 <= i < |rest| && rest[i].uid == slot && rest[i].msg == m;
      assert (one + rest)[|one| + i] == rest[i];
    }
  }

  lemma AllServedJoins(
    plain: bool, c: Config, p: Server, uids: set<Slot>, one: Step, rest: Step, todo: seq<Slot>, w: World)
    requires todo != [] && forall i :: 0 < i < |todo| ==> todo[i] != todo[0]
    requires AllServed(plain, c, p, one.state.uids, rest, todo[1..], w) && one.state.uids <= uids + {todo[0]}
    requires todo[0] !in uids && Spared(plain, p, todo[0]) ==>
               Served(plain, c, one.state.server, one.got, todo[0], p.copies[todo[0]].msg, w.visit(todo[0]))
    requires Keeps(plain, one.state.server, rest.state.server)
    ensures AllServed(plain, c, p, uids, rest.(got := one.got + rest.got), todo, w)
  {
    hide Served, Keeps;
    forall i | 0 <= i < |todo| && todo[i] !in uids && Spared(plain, p, todo[i])
      ensures Served(plain, c, rest.state.server, one.got + rest.got, todo[i], p.copies[todo[i]].msg, w.visit(todo[i]))
    {
      var m := p.copies[todo[i]].msg;
      if i == 0 {
        ServedStays(plain, c, one.state.server, rest.state.server, one.got, rest.got, todo[0], m, w.visit(todo[0]));
      } else {
        assert todo[1..][i - 1] == todo[i];
        ServedBehind(plain, c, rest.state.server, one.got, rest.got, todo[i], m, w.visit(todo[i]));
      }
    }
  }

  lemma KeepsChain(plain: bool, a: Server, b: Server, d: Server)
    requires Keeps(plain, a, b) && Keeps(plain, b, d)
    ensures Keeps(plain, a, d)
  {
    assert forall k :: Spared(plain, a, k) && a.copies[k].seen ==> Spared(plain, b, k);
  }

  lemma {:induction false} VisitAllServes(plain: bool, c: Config, s: State, p: Server, todo: seq<Slot>, w: World)
    requires Inv(c, s) && Reliable(plain, w) && AllWaiting(p, s.server, todo) && Lasting(plain, p, s.server, todo)
    ensures var r := VisitedAll(c, s, todo, w);
            && !r.failed && Keeps(plain, s.server, r.state.server) && Located(plain, p, r.state.server, r.got)
            && AllServed(plain, c, p, s.uids, r, todo, w)
    decreases |todo|
  {
    if todo != [] {
      var slot, v := todo[0], w.visit(todo[0]);
      CopiesArrived(c, s, INBOX, slot);
      AllWait(c, s, p, todo, v);
      assert Spared(plain, p, slot) ==> slot in s.server.copies;
      assert forall i :: 0 < i < |todo| ==> todo[i] != slot;
      assert VisitSucceeds(plain, v);
      hide Inv, Reliable, Visited, AllWaiting, Waiting, Wf, Spared, Keeps;
      hide Located, AllServed, Served, Lasting, VisitSucceeds;
      VisitInv(c, s, p, slot, v);
      StillLasting(plain, c, s, p, todo, v);
      VisitKeeps(plain, c, s, p, slot, v);
      VisitServes(plain, c, s, p, slot, v);
      var one := Visited(c, s, slot, v);
      VisitAllServes(plain, c, one.state, p, todo[1..], w);
      var rest := VisitedAll(c, one.state, todo[1..], w);
      KeepsChain(plain, s.server, one.state.server, rest.state.server);
      LocatedJoins(plain, p, one.state.server, rest.state.server, one.got, rest.got);
      AllServedJoins(plain, c, p, s.uids, one, rest, todo, w);
    }
  }

  /** An unseen mail of INBOX, flagged for deletion or not. */
  predicate InboxUnseen(s: Server, k: Slot) {
    k in s.copies && s.copies[k].folder == INBOX && !s.copies[k].seen
  }

  /** A reliable fetch serves every unseen mail of INBOX whose UID is not remembered, and every
      mail it fetched is where its record says. */
  lemma FetchServes(plain: bool, c: Config, s: State, w: World)
    requires Inv(c, s) && Reliable(plain, w)
    ensures var r := FetchedNew(c, s, w);
            && !r.failed && Located(plain, s.server, r.state.server, r.got)
            && forall k :: InboxUnseen(s.server, k) && k !in s.uids && Spared(plain, s.server, k) ==>
                 Served(plain, c, r.state.server, r.got, k, s.server.copies[k].msg, w.visit(k))
  {
    var todo := w.list(UnseenUids(s.server));
    assert forall k :: InboxUnseen(s.server, k) <==> k in UnseenUids(s.server);
    CopiesArrived(c, s, INBOX, 0);
    UnseenWait(s.server, w.list);
    assert Lasting(plain, s.server, s.server, todo);
    assert w.search.Ok? && ListsOnce(UnseenUids(s.server), todo);
    hide Inv, Reliable, Visited, AllWaiting, UnseenUids, InboxUnseen, Served, Located, Spared;
    VisitAllServes(plain, c, s, s.server, todo, w);
  }

  // ---- dispatching ---------------------------------------------------------------------

  /** From `s` to `r` mails have only gone to Done. */
  ghost predicate Advanced(plain: bool, s: Server, r: Server, done: Folder) {
    && (forall f, m :: Held(plain, s, f, m) ==> Held(plain, r, f, m) || Held(plain, r, done, m))
    && (forall f, m :: f != done && InFolder(r, f, m) ==> InFolder(s, f, m))
  }

  lemma AdvancedChain(plain: bool, a: Server, b: Server, d: Server, done: Folder)
    requires Advanced(plain, a, b, done) && Advanced(plain, b, d, done)
    ensures Advanced(plain, a, d, done)
  {
    hide InFolder, Held;
  }

  lemma NothingAdvanced(plain: bool, s: Server, done: Folder)
    ensures Advanced(plain, s, s, done)
  {
  }

  lemma MoveLeads(plain: bool, s: Server, folder: Folder, slot: Slot, done: Folder, o: MoveOutcomes, f: Folder, m: Msg)
    requires Wf(s) && Succeeds(plain, o) && Held(plain, s, f, m)
    ensures var r := MoveResult(s, folder, slot, done, o).0; Held(plain, r, f, m) || Held(plain, r, done, m)
  {
    var k :| Spared(plain, s, k) && s.copies[k].folder == f && s.copies[k].msg == m && s.copies[k].seen;
    var r := MoveResult(s, folder, slot, done, o).0;
    hide MoveResult, Succeeds, Wf;
    if k == slot && Holds(s, folder, slot) {
      MovesIt(plain, s, folder, slot, done, o);
    } else {
      SparesOthers(plain, s, folder, slot, done, o, k);
      assert Spared(plain, r, k);
    }
  }

  lemma MoveAdvances(plain: bool, s: Server, folder: Folder, slot: Slot, done: Folder, o: MoveOutcomes)
    requires Wf(s) && Succeeds(plain, o) && folder != done
    ensures Advanced(plain, s, MoveResult(s, folder, slot, done, o).0, done)
  {
    var r := MoveResult(s, folder, slot, done, o).0;
    hide MoveResult, Succeeds, Wf, Held;
    forall f, m | Held(plain, s, f, m) ensures Held(plain, r, f, m) || Held(plain, r, done, m) {
      MoveLeads(plain, s, folder, slot, done, o, f, m);
    }
    forall f, m | f != done && InFolder(r, f, m) ensures InFolder(s, f, m) {
      MoveDrains(s, folder, slot, done, o, f);
      var k :| k in r.copies && r.copies[k].folder == f && r.copies[k].msg == m;
      assert k in s.copies && s.copies[k].folder == f && s.copies[k].msg == m;
    }
  }

  /** In `folder` only the copies at `todo` are still found by the Message-ID. */
  ghost predicate Cleared(c: Config, s: Server, folder: Folder, messageId: string, todo: seq<Slot>) {
    forall k :: k in s.copies && s.copies[k].folder == folder && c.matches(c.idOf(s.copies[k].msg), messageId) ==>
      k in todo
  }

  lemma ClearsOne(
    plain: bool, c: Config, s: Server, folder: Folder, todo: seq<Slot>, o: MoveOutcomes, messageId: string)
    requires Wf(s) && Succeeds(plain, o) && folder != c.done && todo != [] && Cleared(c, s, folder, messageId, todo)
    ensures Cleared(c, MoveResult(s, folder, todo[0], c.done, o).0, folder, messageId, todo[1..])
  {
    MoveDrains(s, folder, todo[0], c.done, o, folder);
    if Holds(s, folder, todo[0]) { MovesIt(plain, s, folder, todo[0], c.done, o); }
    hide MoveResult, Succeeds, Wf;
  }

  lemma {:induction false} MoveAllClears(
    plain: bool, c: Config, s: State, folder: Folder, todo: seq<Slot>, move: Slot -> MoveOutcomes, messageId: string)
    requires Wf(s.server) && folder != c.done && Cleared(c, s.server, folder, messageId, todo)
    requires forall k :: Succeeds(plain, move(k))
    ensures var r := MovedAll(s, folder, todo, c.done, move).server;
            Wf(r) && Advanced(plain, s.server, r, c.done) && Cleared(c, r, folder, messageId, [])
    decreases |todo|
  {
    hide Wf, Succeeds, Advanced, Cleared, MoveResult;
    if todo == [] {
      NothingAdvanced(plain, s.server, c.done);
    } else {
      var t := Moved(s, folder, todo[0], c.done, move(todo[0]));
      MoveKeepsWf(s.server, folder, todo[0], c.done, move(todo[0]));
      MoveAdvances(plain, s.server, folder, todo[0], c.done, move(todo[0]));
      ClearsOne(plain, c, s.server, folder, todo, move(todo[0]), messageId);
      MoveAllClears(plain, c, t, folder, todo[1..], move, messageId);
      AdvancedChain(plain, s.server, t.server, MovedAll(t, folder, todo[1..], c.done, move).server, c.done);
    }
  }

  ghost predicate Findable(plain: bool, c: Config, s: Server, f: Fetched) {
    Held(plain, s, f.source, f.msg) || Held(plain, s, c.done, f.msg)
  }

  /** A mail with a Message-ID is in Done and has left the folder it was handled in, unless
      that is Done; without one, or without Done, it is not lost from sight. */
  ghost predicate Finished(plain: bool, c: Config, s: Server, f: Fetched) {
    if c.done == "" || f.messageId == "" then Findable(plain, c, s, f)
    else Held(plain, s, c.done, f.msg) && (f.source != c.done ==> !InFolder(s, f.source, f.msg))
  }

  lemma FoundIsCleared(c: Config, s: Server, folder: Folder, messageId: string, list: Listing)
    requires Enumerates(list)
    ensures Cleared(c, s, folder, messageId, list(FoundUids(c, s, folder, messageId)))
  {
    assert ListsOnce(FoundUids(c, s, folder, messageId), list(FoundUids(c, s, folder, messageId)));
  }

  lemma ClearedIsGone(plain: bool, c: Config, s: Server, folder: Folder, m: Msg)
    requires c.Searches() && Cleared(c, s, folder, c.idOf(m), [])
    ensures !InFolder(s, folder, m) && !Held(plain, s, folder, m)
  {
    assert c.matches(c.idOf(m), c.idOf(m));
  }

  /** Whatever the handler does, a dispatched mail is finished. */
  lemma DispatchFinishes(plain: bool, c: Config, s: State, f: Fetched, h: Handling)
    requires Wf(s.server) && c.Searches() && HandlingSucceeds(plain, h) && WellFetched(c, f)
    ensures var r := Dispatched(c, s, f, h).server;
            && Wf(r) && Advanced(plain, s.server, r, c.done)
            && (Findable(plain, c, s.server, f) ==> Finished(plain, c, r, f))
  {
    assert h.search.Ok? && (forall k :: Succeeds(plain, h.move(k)));
    assert Enumerates(h.list) && f.messageId == c.idOf(f.msg);
    hide Wf, Held, InFolder, Cleared, FoundUids, HandlingSucceeds, Enumerates, WellFetched, Succeeds;
    var t := s.(dispatched := s.dispatched + [f.msg]);
    NothingAdvanced(plain, s.server, c.done);
    if c.done != "" && c.done != f.source && f.messageId != "" {
      var found := h.list(FoundUids(c, t.server, f.source, f.messageId));
      FoundIsCleared(c, t.server, f.source, f.messageId, h.list);
      MoveAllClears(plain, c, t, f.source, found, h.move, f.messageId);
      ClearedIsGone(plain, c, Dispatched(c, s, f, h).server, f.source, f.msg);
    }
  }

  lemma FinishedStays(plain: bool, c: Config, s: Server, r: Server, f: Fetched)
    requires Advanced(plain, s, r, c.done)
    ensures Finished(plain, c, s, f) ==> Finished(plain, c, r, f)
    ensures Findable(plain, c, s, f) ==> Findable(plain, c, r, f)
  {
    hide InFolder, Held;
  }

  /** Of the mails that were spared in `p`, those below `n` are finished and all others can be found. */
  ghost predicate FinishedTo(plain: bool, c: Config, p: Server, s: Server, got: seq<Fetched>, n: nat) {
    forall i :: 0 <= i < |got| && Spared(plain, p, got[i].uid) ==>
      if i < n then Finished(plain, c, s, got[i]) else Findable(plain, c, s, got[i])
  }

  lemma FinishesOne(plain: bool, c: Config, p: Server, s: Server, r: Server, got: seq<Fetched>, i: nat)
    requires i < |got| && Advanced(plain, s, r, c.done) && FinishedTo(plain, c, p, s, got, i)
    requires Findable(plain, c, s, got[i]) ==> Finished(plain, c, r, got[i])
    ensures FinishedTo(plain, c, p, r, got, i + 1)
  {
    hide Advanced, Finished, Findable, Spared;
    forall j | 0 <= j < |got| && Spared(plain, p, got[j].uid)
      ensures if j < i + 1 then Finished(plain, c, r, got[j]) else Findable(plain, c, r, got[j])
    {
      FinishedStays(plain, c, s, r, got[j]);
    }
  }

  lemma {:induction false} DispatchAllFinishes(
    plain: bool, c: Config, p: Server, s: State, got: seq<Fetched>, i: nat, w: World)
    requires Wf(s.server) && c.Searches() && Reliable(plain, w) && AllWell(c, got)
    requires i <= |got| && FinishedTo(plain, c, p, s.server, got, i)
    ensures FinishedTo(plain, c, p, DispatchedFrom(c, s, got, i, w).server, got, Reached(|got|, i, w))
    decreases |got| - i
  {
    if i < |got| {
      assert HandlingSucceeds(plain, w.handle(i)) && WellFetched(c, got[i]);
      hide Wf, Reliable, HandlingSucceeds, Dispatched, FinishedTo, Finished, Findable, Advanced, WellFetched;
      DispatchFinishes(plain, c, s, got[i], w.handle(i));
      var t := Dispatched(c, s, got[i], w.handle(i));
      FinishesOne(plain, c, p, s.server, t.server, got, i);
      if !w.handle(i).raises { DispatchAllFinishes(plain, c, p, t, got, i + 1, w); }
    }
  }

  lemma LocatedIsFindable(plain: bool, c: Config, p: Server, s: Server, got: seq<Fetched>)
    requires Located(plain, p, s, got)
    ensures FinishedTo(plain, c, p, s, got, 0)
  {
    hide Held, Spared;
  }

  /** When commands succeed, every mail the poll gets to dispatch is finished, and every other
      one it fetched can be found. A mail the user flagged as deleted counts unless a plain
      EXPUNGE runs. */
  lemma PollFinishes(plain: bool, c: Config, s: State, w: World)
    requires Inv(c, s) && c.Searches() && Reliable(plain, w)
    ensures var got := FetchedNew(c, s, w).got;
            FinishedTo(plain, c, s.server, Checked(c, s, w).server, got, Reached(|got|, 0, w))
  {
    var r := FetchedNew(c, s, w);
    assert w.Lists();
    hide Inv, Reliable, FetchedNew, Located, FinishedTo, Served, Dispatched, WellFetched;
    FetchServes(plain, c, s, w);
    FetchInv(c, s, w);
    CopiesArrived(c, r.state, INBOX, 0);
    LocatedIsFindable(plain, c, s.server, r.state.server, r.got);
    DispatchAllFinishes(plain, c, s.server, r.state, r.got, 0, w);
  }

  /** So a mail that waits, is accepted and parses is dispatched and finished by a reliable poll
      in which no dispatch raises. */
  lemma WaitingIsFinished(plain: bool, c: Config, s: State, w: World, k: Slot)
    requires Inv(c, s) && c.Searches() && Reliable(plain, w) && forall i :: !w.handle(i).raises
    requires InboxUnseen(s.server, k) && k !in s.uids && Spared(plain, s.server, k)
    requires w.visit(k).accepted && w.visit(k).parsed
    ensures exists f :: f in FetchedNew(c, s, w).got && f.uid == k && f.msg == s.server.copies[k].msg
                        && Finished(plain, c, Checked(c, s, w).server, f)
  {
    hide Inv, Reliable, FetchedNew, Checked, Located, UnseenUids, Finished, Findable;
    FetchServes(plain, c, s, w);
    PollFinishes(plain, c, s, w);
    var got := FetchedNew(c, s, w).got;
    ReachedIsFirstRaise(|got|, 0, w);
    var i :| 0 <= i < |got| && got[i].uid == k && got[i].msg == s.server.copies[k].msg;
    assert Finished(plain, c, Checked(c, s, w).server, got[i]);
  }
}

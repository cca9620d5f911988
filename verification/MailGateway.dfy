/** The adapter itself: its methods change the server and the remembered UIDs step by step, as
    the code does, and compute the functions of `MailPoll`. */
module MailGateway {
  import opened MailServer
  import opened MailPoll
  import opened MailLifecycle
  import opened MailRuns
  import opened MailRepeats

  class Gateway {
    const cfg: Config
    var server: Server
    var seenUids: set<Slot>
    ghost var forgot: bool
    ghost var arrived: set<Msg>
    ghost var taken: seq<Msg>
    ghost var dispatched: seq<Msg>

    ghost function Contents(): State
      reads this
    {
      State(server, seenUids, forgot, arrived, taken, dispatched)
    }

    ghost predicate Valid()
      reads this
    {
      Inv(cfg, Contents()) && Balanced(Contents())
    }

    constructor (config: Config)
      ensures Valid() && cfg == config && Contents() == Start()
    {
      cfg, server, seenUids, forgot, arrived, taken, dispatched := config, Server(map[], 0), {}, false, {}, [], [];
      StartInv(config);
    }

    /** Mail arrives in INBOX, unseen. */
    method Deliver(m: Msg)
      requires Valid() && m !in arrived
      modifies this
      ensures Valid() && Contents() == Delivered(old(Contents()), m)
    {
      StepInv(cfg, Contents(), Event.Deliver(m));
      hide Inv, Balanced, Posted;
      server := Posted(server, m);
      arrived := arrived + {m};
    }

    /** MOVE with its fallbacks, for the answers `o`. */
    method ImapMove(folder: Folder, slot: Slot, dst: Folder, o: MoveOutcomes) returns (moved: bool)
      modifies `server
      ensures (server, moved) == MoveResult(old(server), folder, slot, dst, o)
    {
      hide Relocate, Duplicate, FlagDeleted, ExpungeOne, ExpungeAll;
      if o.move.Applied() { server := Relocate(server, folder, slot, dst); }
      if o.move.Ok? { return true; }
      if o.copy.Applied() { server := Duplicate(server, folder, slot, dst); }
      if !o.copy.Ok? { return false; }
      if o.store.Applied() { server := FlagDeleted(server, folder, slot); }
      if o.store.Raised? { return false; }
      if o.uidExpunge.Applied() { server := ExpungeOne(server, folder, slot); }
      if !o.uidExpunge.Raised? { return true; }
      if o.expunge.Applied() { server := ExpungeAll(server, folder); }
      return !o.expunge.Raised?;
    }

    /** Above the cap, keep the highest half. */
    method TrimSeenUids()
      modifies `seenUids, `forgot
      ensures seenUids == Trim(cfg.seenMax, old(seenUids))
      ensures forgot == (old(forgot) || seenUids != old(seenUids))
    {
      if |seenUids| <= cfg.seenMax || cfg.seenMax / 2 == 0 {
        return;
      }
      var keep := seenUids;
      while |keep| > cfg.seenMax / 2
        invariant |keep| >= cfg.seenMax / 2 && Highest(keep, cfg.seenMax / 2) == Highest(seenUids, cfg.seenMax / 2)
        decreases |keep|
        modifies {}
      {
        LeastExists(keep);
        var least :| least in keep && IsLeast(keep, least);
        assert least == Least(keep);
        keep := keep - {least};
      }
      forgot := forgot || keep != seenUids;
      seenUids := keep;
    }

    /** A command that flags a mail as seen. */
    method FlagAsSeen(slot: Slot, o: Outcome)
      modifies `server
      ensures Contents() == Flagging(old(Contents()), slot, o)
    {
      if o.Applied() { server := FlagSeen(server, INBOX, slot); }
    }

    method MarkUidConsumed(slot: Slot, v: Visit) returns (failed: bool)
      modifies this
      ensures Step(Contents(), [], failed) == Consumed(cfg, old(Contents()), slot, v)
    {
      hide Trim, FlagSeen, MoveResult;
      seenUids := seenUids + {slot};
      TrimSeenUids();
      FlagAsSeen(slot, v.flag);
      if v.flag.Raised? {
        return true;
      }
      if cfg.done != "" {
        var _ := ImapMove(INBOX, slot, cfg.done, v.move);
      }
      return false;
    }

    method Park(slot: Slot, o: MoveOutcomes) returns (f: Fetched)
      requires slot in server.copies
      modifies `server
      ensures (Contents(), f) == Parked(cfg, old(Contents()), slot, o)
    {
      hide MoveResult;
      var m := server.copies[slot].msg;
      f := Fetched(slot, m, cfg.idOf(m), INBOX);
      if cfg.done != "" && cfg.working != "" && f.messageId != "" {
        var moved := ImapMove(INBOX, slot, cfg.working, o);
        if moved { f := f.(source := cfg.working); }
      }
    }

    method FetchBody(slot: Slot, v: Visit) returns (got: seq<Fetched>, failed: bool)
      requires Holds(server, INBOX, slot)
      modifies this
      ensures Step(Contents(), got, failed) == BodyFetched(cfg, old(Contents()), slot, v)
    {
      ghost var s := Contents();
      FlagHolds(cfg, s, slot, v.flag);
      hide Trim, FlagSeen, MoveResult, Parked;
      FlagAsSeen(slot, v.flag);
      if !v.flag.Ok? {
        return [], v.flag.Raised?;
      }
      seenUids := seenUids + {slot};
      TrimSeenUids();
      if !v.parsed {
        return [], false;
      }
      taken := taken + [server.copies[slot].msg];
      var f := Park(slot, v.move);
      return [f], false;
    }

    method FetchOne(slot: Slot, v: Visit) returns (got: seq<Fetched>, failed: bool)
      modifies this
      ensures Step(Contents(), got, failed) == Visited(cfg, old(Contents()), slot, v)
    {
      hide Consumed, BodyFetched;
      if slot in seenUids {
        return [], false;
      }
      if !v.header.Ok? {
        return [], v.header.Raised?;
      }
      if !Holds(server, INBOX, slot) || !v.accepted {
        failed := MarkUidConsumed(slot, v);
        got := [];
      } else {
        got, failed := FetchBody(slot, v);
      }
    }

    /** `_fetch_new_messages`: a failure on the way keeps what was fetched before it. */
    method FetchNewMessages(w: World) returns (results: seq<Fetched>, failed: bool)
      modifies this
      ensures Step(Contents(), results, failed) == FetchedNew(cfg, old(Contents()), w)
    {
      results, failed := [], false;
      if !w.search.Ok? {
        return results, w.search.Raised?;
      }
      var todo, i := w.list(UnseenUids(server)), 0;
      ghost var all := VisitedAll(cfg, Contents(), todo, w);
      assert todo[0..] == todo && all == all.(got := [] + all.got);
      hide Visited, UnseenUids;
      while i < |todo| && !failed
        invariant 0 <= i <= |todo|
        invariant failed ==> all == Step(Contents(), results, true)
        invariant !failed ==>
          var rest := VisitedAll(cfg, Contents(), todo[i..], w); all == rest.(got := results + rest.got)
      {
        Unroll(cfg, Contents(), todo, i, w, results, all);
        var got;
        got, failed := FetchOne(todo[i], w.visit(todo[i]));
        results := results + got;
        i := i + 1;
      }
    }

    /** `_finalize_message`, best effort: failures are logged. */
    method FinalizeMessage(f: Fetched, h: Handling)
      modifies `server
      ensures Contents() == Finalized(cfg, old(Contents()), f, h)
    {
      if cfg.done == "" || cfg.done == f.source || f.messageId == "" || !h.search.Ok? {
        return;
      }
      var todo, i := h.list(FoundUids(cfg, server, f.source, f.messageId)), 0;
      ghost var all := MovedAll(Contents(), f.source, todo, cfg.done, h.move);
      assert todo[0..] == todo;
      hide MoveResult, FoundUids;
      while i < |todo|
        invariant 0 <= i <= |todo| && all == MovedAll(Contents(), f.source, todo[i..], cfg.done, h.move)
      {
        assert todo[i..][1..] == todo[i + 1..];
        var _ := ImapMove(f.source, todo[i], cfg.done, h.move(todo[i]));
        i := i + 1;
      }
    }

    /** `_dispatch_message`: the `finally` block finalizes the mail, and an exception of gate or
        handler goes on to the caller. */
    method DispatchMessage(f: Fetched, h: Handling) returns (raised: bool)
      modifies `server, `dispatched
      ensures Contents() == Dispatched(cfg, old(Contents()), f, h) && raised == h.raises
    {
      hide Finalized;
      dispatched := dispatched + [f.msg];
      FinalizeMessage(f, h);
      return h.raises;
    }

    /** The loop over what was fetched, which an exception leaves. */
    method DispatchAll(results: seq<Fetched>, w: World) returns (raised: bool)
      modifies `server, `dispatched
      ensures Contents() == DispatchedFrom(cfg, old(Contents()), results, 0, w)
      ensures raised <==> exists i :: 0 <= i < |results| && w.handle(i).raises
    {
      hide Dispatched;
      var i := 0;
      while i < |results|
        invariant 0 <= i <= |results|
        invariant DispatchedFrom(cfg, Contents(), results, i, w) == DispatchedFrom(cfg, old(Contents()), results, 0, w)
        invariant forall j :: 0 <= j < i ==> !w.handle(j).raises
        modifies `server, `dispatched
      {
        var failed := DispatchMessage(results[i], w.handle(i));
        if failed { return true; }
        i := i + 1;
      }
      return false;
    }

    /** One poll: what was fetched before a failure is dispatched, as far as that goes. */
    method CheckInbox(w: World)
      requires Valid() && w.Lists()
      modifies this
      ensures Valid() && Contents() == Checked(cfg, old(Contents()), w)
    {
      ghost var s := Contents();
      StepInv(cfg, s, Poll(w));
      hide Inv, Balanced, FetchedNew, DispatchedFrom;
      var results, failed := FetchNewMessages(w);
      var raised := DispatchAll(results, w);
    }

    method Handle(e: Event)
      requires Valid() && Legal([e]) && (e.Deliver? ==> e.msg !in arrived)
      modifies this
      ensures Valid() && Contents() == Stepped(cfg, old(Contents()), e)
    {
      assert [e][0] == e;
      hide Inv, Balanced, Delivered, Checked;
      match e
      case Deliver(m) => Deliver(m);
      case Poll(w) => CheckInbox(w);
    }
  }

  /** What the `i`-th visit does to the rest of the loop. */
  lemma Unroll(c: Config, s: State, todo: seq<Slot>, i: nat, w: World, results: seq<Fetched>, all: Step)
    requires i < |todo|
    requires var rest := VisitedAll(c, s, todo[i..], w); all == rest.(got := results + rest.got)
    ensures var one := Visited(c, s, todo[i], w.visit(todo[i]));
            if one.failed then all == Step(one.state, results + one.got, true)
            else
              var rest := VisitedAll(c, one.state, todo[i + 1..], w);
              all == rest.(got := results + one.got + rest.got)
  {
    hide Visited;
    assert todo[i..][1..] == todo[i + 1..];
  }

  /** Mails come in once. */
  predicate NewMail(events: seq<Event>) {
    forall i, j :: 0 <= i < j < |events| && events[i].Deliver? && events[j].Deliver? ==> events[i].msg != events[j].msg
  }

  lemma StepArrives(c: Config, s: State, e: Event)
    requires Inv(c, s) && Legal([e])
    ensures Stepped(c, s, e).arrived == s.arrived + if e.Deliver? then {e.msg} else {}
  {
    assert [e][0] == e;
    hide Inv, Checked;
    if e.Poll? { PollInv(c, s, e.w); }
  }

  lemma AfterNext(c: Config, s: State, events: seq<Event>, i: nat)
    requires i < |events|
    ensures After(c, s, events[..i + 1]) == Stepped(c, After(c, s, events[..i]), events[i])
  {
    assert events[..i + 1][..i] == events[..i];
    hide Stepped;
  }

  /** A whole run of the adapter, one event after the other. */
  method Run(cfg: Config, events: seq<Event>) returns (g: Gateway)
    requires Legal(events) && NewMail(events)
    ensures fresh(g) && g.Valid() && g.cfg == cfg && g.Contents() == After(cfg, Start(), events)
    ensures NothingLost(g.server, g.arrived) && WorkingFindable(cfg, g.server)
    ensures cfg.done != INBOX || !g.forgot ==> Distinct(g.dispatched)
  {
    g := new Gateway(cfg);
    hide Inv, Balanced, Stepped;
    for i := 0 to |events|
      invariant fresh(g) && g.Valid() && g.cfg == cfg && g.Contents() == After(cfg, Start(), events[..i])
      invariant forall j :: i <= j < |events| && events[j].Deliver? ==> events[j].msg !in g.arrived
    {
      assert Legal([events[i]]);
      StepArrives(cfg, g.Contents(), events[i]);
      AfterNext(cfg, Start(), events, i);
      g.Handle(events[i]);
    }
    assert events[..|events|] == events;
    hide *;
    RunIsSafe(cfg, events);
  }

  lemma {:induction false} OneDelivery(m: Msg, n: nat)
    ensures forall i :: 0 < i < |Rejecting(m, n)| ==> Rejecting(m, n)[i].Poll?
  {
    if n > 0 { OneDelivery(m, n - 1); }
  }

  /** With Done in INBOX, the run of `Repeats` makes the adapter dispatch its one mail twice. */
  method RunTwice(cfg: Config, events: seq<Event>, ghost m: Msg) returns (g: Gateway)
    requires cfg.done == INBOX && cfg.seenMax >= 2 && events == Repeating(cfg, m)
    ensures fresh(g) && g.Valid() && g.cfg == cfg && !Distinct(g.dispatched)
  {
    OneDelivery(m, cfg.seenMax + 1);
    hide Rejecting, Distinct, Legal, After, Inv, Balanced, Turn;
    assert NewMail(events);
    Repeats(cfg, m);
    g := Run(cfg, events);
  }
}
